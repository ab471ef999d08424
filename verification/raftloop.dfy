/** How the raft loop turns what raft reports of leadership into callbacks and contexts
    (raft/locker.go).

    The loop is meant as an edge detector.  As written, its follower branch leaves `isLeader` set;
    `reset` selects the variant that clears it, so that the two can be compared. */
module RaftLoop {
  import opened Wrappers

  /** Raft's soft state: the leader's id (0 for none) and whether this node is in the leader state. */
  datatype Soft = Soft(lead: nat, leading: bool)

  /** One Ready event: its soft state if that changed, and the status the node would report. */
  datatype Ready = Ready(softState: Option<Soft>, status: Soft)

  /** A user hook called: started with a context, or stopped. */
  datatype Callback = Started(ctx: nat) | Stopped

  /** The loop's variables.  Contexts are numbered in order of creation; `ctx` is the current one. */
  datatype Loop = Loop(isLeader: bool, initialized: bool, ctx: nat, cancelled: set<nat>, calls: seq<Callback>)

  const FRESH := Loop(false, false, 0, {}, [])

  function Reported(rd: Ready): Soft { if rd.softState.Some? then rd.softState.value else rd.status }

  function NowLeader(id: nat, soft: Soft): bool { soft.lead == id || soft.leading }

  function Observe(s: Loop, nowLeader: bool, reset: bool): Loop {
    if nowLeader == s.isLeader && s.initialized then s
    else if nowLeader then Loop(true, true, s.ctx, s.cancelled, s.calls + [Started(s.ctx)])
    else Loop(s.isLeader && !reset, true, s.ctx + 1, s.cancelled + {s.ctx}, s.calls + [Stopped])
  }

  /** The outer context is done: the current one is cancelled and a leader reports its stop. */
  function Halt(s: Loop): Loop {
    s.(cancelled := s.cancelled + {s.ctx}, calls := s.calls + if s.isLeader then [Stopped] else [])
  }

  function Run(observations: seq<bool>, reset: bool): Loop {
    if observations == [] then FRESH
    else Observe(Run(observations[..|observations| - 1], reset), observations[|observations| - 1], reset)
  }

  // ----- the reference: an edge detector

  datatype Edge = Rise | Fall

  function EdgeAt(observations: seq<bool>, i: nat): seq<Edge>
    requires i < |observations|
  {
    if i > 0 && observations[i] == observations[i - 1] then []
    else [if observations[i] then Rise else Fall]
  }

  /** An initial report, then one rise or fall per change. */
  function Edges(observations: seq<bool>): seq<Edge> {
    if observations == [] then []
    else Edges(observations[..|observations| - 1]) + EdgeAt(observations, |observations| - 1)
  }

  /** Ending a run is a fall for a leader. */
  function EdgesHalted(observations: seq<bool>): seq<Edge> {
    Edges(observations) + if observations != [] && observations[|observations| - 1] then [Fall] else []
  }

  function Kinds(calls: seq<Callback>): (edges: seq<Edge>)
    ensures |edges| == |calls|
  {
    seq(|calls|, i requires 0 <= i < |calls| => if calls[i].Started? then Rise else Fall)
  }

  function Told(observations: seq<bool>, reset: bool): seq<Edge> { Kinds(Run(observations, reset).calls) }

  function ToldHalted(observations: seq<bool>, reset: bool): seq<Edge> { Kinds(Halt(Run(observations, reset)).calls) }

  lemma KindsAppend(calls: seq<Callback>, more: seq<Callback>)
    ensures Kinds(calls + more) == Kinds(calls) + Kinds(more)
  {
  }

  /** What one more observation adds to the calls. */
  lemma ToldNext(observations: seq<bool>, reset: bool)
    requires observations != []
    ensures var (before, last) := (Run(observations[..|observations| - 1], reset), observations[|observations| - 1]);
            Told(observations, reset) == Kinds(before.calls) +
              if last == before.isLeader && before.initialized then [] else [if last then Rise else Fall]
    ensures Run(observations, reset).initialized
  {
  }

  lemma InitializedOnce(observations: seq<bool>, reset: bool)
    ensures Run(observations, reset).initialized <==> observations != []
  {
  }

  /** With the flag reset the loop is an edge detector, and `isLeader` is the last observation. */
  lemma {:induction false} ResetDetectsEdges(observations: seq<bool>)
    ensures Told(observations, true) == Edges(observations)
    ensures Run(observations, true).isLeader <==> observations != [] && observations[|observations| - 1]
  {
    if observations != [] {
      var init := observations[..|observations| - 1];
      ResetDetectsEdges(init);
      InitializedOnce(init, true);
      ToldNext(observations, true);
      assert init != [] ==> init[|init| - 1] == observations[|observations| - 2];
    }
  }

  lemma ResetHaltsRight(observations: seq<bool>)
    ensures ToldHalted(observations, true) == EdgesHalted(observations)
  {
    ResetDetectsEdges(observations);
    var s := Run(observations, true);
    KindsAppend(s.calls, if s.isLeader then [Stopped] else []);
  }

  // ----- the loop as written

  /** As written, having once led is never forgotten. */
  lemma {:induction false} NeverForgets(observations: seq<bool>)
    ensures Run(observations, false).isLeader <==> true in observations
  {
    if observations != [] {
      var init := observations[..|observations| - 1];
      NeverForgets(init);
      assert observations == init + [observations[|observations| - 1]];
    }
  }

  /** After the first true observation all are true, but that the last one may be false. */
  ghost predicate Settled(observations: seq<bool>) {
    forall i, j :: 0 <= i < j < |observations| - 1 && observations[i] ==> observations[j]
  }

  /** After the first true observation all are true. */
  ghost predicate Steady(observations: seq<bool>) {
    forall i, j :: 0 <= i < j < |observations| && observations[i] ==> observations[j]
  }

  lemma {:induction false} SettledAgrees(observations: seq<bool>)
    requires Settled(observations)
    ensures Told(observations, false) == Edges(observations)
  {
    if observations != [] {
      var n := |observations|;
      var init := observations[..n - 1];
      SettledAgrees(init);
      InitializedOnce(init, false);
      NeverForgets(init);
      ToldNext(observations, false);
      if true in init {
        var i :| 0 <= i < n - 1 && init[i];
        assert observations[i] && init[n - 2];
      } else {
        assert n > 1 ==> !init[n - 2];
      }
    }
  }

  /** `p` edges are shared; the next, where there is one, is a fall on one side and a rise on the other. */
  ghost predicate PartAt(told: seq<Edge>, edges: seq<Edge>, p: nat) {
    && p <= |told| && p <= |edges| && told[..p] == edges[..p]
    && (p < |told| || p < |edges|)
    && (p < |told| ==> told[p] == Fall)
    && (p < |edges| ==> edges[p] == Rise)
  }

  lemma PartExtends(told: seq<Edge>, edges: seq<Edge>, p: nat, moreTold: seq<Edge>, moreEdges: seq<Edge>)
    requires PartAt(told, edges, p) && 0 < p
    requires moreTold == [] || moreTold == [Fall]
    requires |edges| == p && moreEdges != [] ==> moreEdges[0] == Rise
    ensures PartAt(told + moreTold, edges + moreEdges, p) && (edges + moreEdges)[p - 1] == edges[p - 1]
  {
  }

  lemma LastEdge(observations: seq<bool>)
    requires observations != []
    ensures var edges := Edges(observations);
            edges != [] && (edges[|edges| - 1] == Rise <==> observations[|observations| - 1])
  {
  }

  /** Having led, the loop as written adds a stop for each false observation and nothing else. */
  lemma AfterLeading(observations: seq<bool>)
    requires observations != [] && true in observations[..|observations| - 1]
    ensures var (init, last) := (observations[..|observations| - 1], observations[|observations| - 1]);
            Told(observations, false) == Told(init, false) + if last then [] else [Fall]
  {
    NeverForgets(observations[..|observations| - 1]);
    InitializedOnce(observations[..|observations| - 1], false);
    ToldNext(observations, false);
  }

  /** The observation after a final false one makes the two part. */
  lemma PartsHere(observations: seq<bool>, i: nat)
    requires 2 <= |observations| && i < |observations| - 2 && observations[i] && !observations[|observations| - 2]
    requires Settled(observations[..|observations| - 1])
    ensures var p := |Edges(observations[..|observations| - 1])|;
            && PartAt(Told(observations, false), Edges(observations), p)
            && 0 < p && Edges(observations)[p - 1] == Fall
  {
    var (init, last) := (observations[..|observations| - 1], observations[|observations| - 1]);
    assert init[i];
    SettledAgrees(init);
    LastEdge(init);
    AfterLeading(observations);
  }

  lemma {:induction false} Parts(observations: seq<bool>) returns (p: nat)
    requires !Settled(observations)
    ensures PartAt(Told(observations, false), Edges(observations), p)
    ensures 0 < p && Edges(observations)[p - 1] == Fall
  {
    var n := |observations|;
    var (init, last) := (observations[..n - 1], observations[n - 1]);
    if Settled(init) {
      var i, j :| 0 <= i < j < n - 1 && observations[i] && !observations[j];
      assert init[i] && !init[j];
      PartsHere(observations, i);
      p := |Edges(init)|;
    } else {
      var i, j :| 0 <= i < j < n - 2 && init[i] && !init[j];
      p := Parts(init);
      LastEdge(init);
      AfterLeading(observations);
      PartExtends(Told(init, false), Edges(init), p, if last then [] else [Fall], EdgeAt(observations, n - 1));
    }
  }

  /** The loop as written makes exactly an edge detector's calls on the settled runs, and no others. */
  lemma AsWrittenAgreesIff(observations: seq<bool>)
    ensures Told(observations, false) == Edges(observations) <==> Settled(observations)
  {
    if Settled(observations) {
      SettledAgrees(observations);
    } else {
      var p := Parts(observations);
    }
  }

  /** Ended by its outer context, it does so on the steady runs only. */
  lemma AsWrittenHaltsRightIff(observations: seq<bool>)
    ensures ToldHalted(observations, false) == EdgesHalted(observations) <==> Steady(observations)
  {
    var s := Run(observations, false);
    NeverForgets(observations);
    KindsAppend(s.calls, if s.isLeader then [Stopped] else []);
    if Settled(observations) {
      SettledAgrees(observations);
      if true in observations {
        var i :| 0 <= i < |observations| && observations[i];
        assert Steady(observations) <==> observations[|observations| - 1];
      }
    } else {
      var p := Parts(observations);
      LastEdge(observations);
      PartExtends(Told(observations, false), Edges(observations), p, [Fall],
                  if observations[|observations| - 1] then [Fall] else []);
      assert !Steady(observations);
    }
  }

  /** A node that leads, follows and leads again is never told of its second term. */
  lemma SecondTermUnreported()
    ensures Told([true, false, true], false) == [Rise, Fall]
    ensures Edges([true, false, true]) == [Rise, Fall, Rise]
  {
    assert [true, false, true][..2] == [true, false] && [true, false][..1] == [true] && [true][..0] == [];
    ToldNext([true], false);
    ToldNext([true, false], false);
    ToldNext([true, false, true], false);
  }

  // ----- contexts

  /** Every context handed to a start callback but the current one is cancelled; the current one
      is handed out at most once, and only while the loop holds itself leader. */
  ghost predicate ContextsInv(s: Loop) {
    && (forall k :: 0 <= k < |s.calls| && s.calls[k].Started? ==> s.calls[k].ctx <= s.ctx)
    && (forall c: nat :: c < s.ctx ==> c in s.cancelled)
    && (forall k, l :: 0 <= k < l < |s.calls| && s.calls[k].Started? && s.calls[l].Started? ==>
          s.calls[k].ctx < s.calls[l].ctx)
    && (!s.isLeader ==> forall k :: 0 <= k < |s.calls| && s.calls[k].Started? ==> s.calls[k].ctx < s.ctx)
    && (!s.initialized ==> !s.isLeader)
  }

  lemma ObserveContexts(s: Loop, nowLeader: bool, reset: bool)
    requires ContextsInv(s)
    ensures ContextsInv(Observe(s, nowLeader, reset))
  {
  }

  lemma {:induction false} RunContexts(observations: seq<bool>, reset: bool)
    ensures ContextsInv(Run(observations, reset))
  {
    if observations != [] {
      RunContexts(observations[..|observations| - 1], reset);
      ObserveContexts(Run(observations[..|observations| - 1], reset), observations[|observations| - 1], reset);
    }
  }

  /** At any time at most one context handed to a start callback is uncancelled, and no context
      is handed out twice: for the loop as written and for the reset one. */
  lemma OneLiveContext(observations: seq<bool>, reset: bool, k: nat, l: nat)
    requires var calls := Run(observations, reset).calls; k < l < |calls| && calls[k].Started? && calls[l].Started?
    ensures var s := Run(observations, reset);
            s.calls[k].ctx != s.calls[l].ctx && s.calls[k].ctx in s.cancelled
  {
    RunContexts(observations, reset);
  }

  function Stops(calls: seq<Callback>): nat {
    if calls == [] then 0
    else Stops(calls[..|calls| - 1]) + if calls[|calls| - 1].Stopped? then 1 else 0
  }

  lemma StopsAppend(calls: seq<Callback>, call: Callback)
    ensures Stops(calls + [call]) == Stops(calls) + if call.Stopped? then 1 else 0
  {
    assert (calls + [call])[..|calls|] == calls;
  }

  /** Every start was handed the context numbered by the stops before it. */
  ghost predicate Counted(calls: seq<Callback>) {
    forall k :: 0 <= k < |calls| && calls[k].Started? ==> calls[k].ctx == Stops(calls[..k])
  }

  lemma CountedAppend(calls: seq<Callback>, call: Callback)
    requires Counted(calls) && (call.Started? ==> call.ctx == Stops(calls))
    ensures Counted(calls + [call])
  {
    var more := calls + [call];
    forall k | 0 <= k < |more| && more[k].Started? ensures more[k].ctx == Stops(more[..k]) {
      assert more[..k] == calls[..k];
      assert calls[..|calls|] == calls;
    }
  }

  /** Exactly the contexts before the current one are cancelled, one for each stop. */
  ghost predicate CancelledByStops(s: Loop) {
    && (forall c: nat :: c in s.cancelled <==> c < s.ctx)
    && s.ctx == Stops(s.calls) && Counted(s.calls)
  }

  lemma ObserveCancels(s: Loop, nowLeader: bool, reset: bool)
    requires CancelledByStops(s)
    ensures CancelledByStops(Observe(s, nowLeader, reset))
  {
    var call := if nowLeader then Callback.Started(s.ctx) else Stopped;
    StopsAppend(s.calls, call);
    CountedAppend(s.calls, call);
  }

  lemma {:induction false} CancelledExactly(observations: seq<bool>, reset: bool)
    ensures CancelledByStops(Run(observations, reset))
  {
    if observations != [] {
      CancelledExactly(observations[..|observations| - 1], reset);
      ObserveCancels(Run(observations[..|observations| - 1], reset), observations[|observations| - 1], reset);
    }
  }

  lemma {:induction false} StopsSince(calls: seq<Callback>, k: nat)
    requires k <= |calls|
    ensures Stops(calls[..k]) <= Stops(calls)
    ensures Stops(calls[..k]) < Stops(calls) <==> exists l :: k <= l < |calls| && calls[l].Stopped?
    decreases |calls|
  {
    var n := |calls| - 1;
    if k == |calls| {
      assert calls[..k] == calls;
    } else {
      assert calls[..n][..k] == calls[..k];
      StopsSince(calls[..n], k);
    }
  }

  /** In every run a context handed to a start callback is live until the next stop is reported, and
      cancelled from then on. */
  lemma LiveUntilNextStop(observations: seq<bool>, reset: bool, k: nat)
    requires k < |Run(observations, reset).calls| && Run(observations, reset).calls[k].Started?
    ensures var s := Run(observations, reset);
            s.calls[k].ctx in s.cancelled <==> exists l :: k < l < |s.calls| && s.calls[l].Stopped?
  {
    CancelledExactly(observations, reset);
    StopsSince(Run(observations, reset).calls, k);
  }

  /** After the loop has ended, every context ever handed out is cancelled. */
  lemma HaltCancelsAll(observations: seq<bool>, reset: bool, k: nat)
    requires k < |Halt(Run(observations, reset)).calls| && Halt(Run(observations, reset)).calls[k].Started?
    ensures Halt(Run(observations, reset)).calls[k].ctx in Halt(Run(observations, reset)).cancelled
  {
    CancelledExactly(observations, reset);
    RunContexts(observations, reset);
  }

  /** What the loop makes of each Ready event. */
  function Observations(id: nat, readies: seq<Ready>): seq<bool> {
    seq(|readies|, i requires 0 <= i < |readies| => NowLeader(id, Reported(readies[i])))
  }

  /** The loop over Ready events, with the state it publishes for other goroutines. */
  class RaftNode {
    const id: nat
    var isLeader: bool
    var initialized: bool
    var ctx: nat
    var cancelled: set<nat>
    var calls: seq<Callback>
    var publishedLeader: nat
    var publishedIsLeader: bool

    function Variables(): Loop
      reads this
    {
      Loop(isLeader, initialized, ctx, cancelled, calls)
    }

    /** The configuration is rejected when its id is zero. */
    constructor (id: nat)
      requires id != 0
      ensures Variables() == FRESH && this.id == id && publishedLeader == 0 && !publishedIsLeader
    {
      this.id := id;
      isLeader, initialized, ctx, cancelled, calls := false, false, 0, {}, [];
      publishedLeader, publishedIsLeader := 0, false;
    }

    method ObserveReady(rd: Ready)
      modifies this
      ensures Variables() == Observe(old(Variables()), publishedIsLeader, false)
      ensures rd.softState.Some? ==> publishedLeader == rd.softState.value.lead
      ensures rd.softState.None? ==> publishedLeader == rd.status.lead
      ensures publishedIsLeader <==> publishedLeader == id ||
                                     (if rd.softState.Some? then rd.softState.value.leading else rd.status.leading)
    {
      var soft := if rd.softState.Some? then rd.softState.value else rd.status;
      var nowLeader := soft.lead == id || soft.leading;
      publishedLeader, publishedIsLeader := soft.lead, nowLeader;
      if nowLeader != isLeader || !initialized {
        initialized := true;
        if nowLeader {
          isLeader := true;
          calls := calls + [Started(ctx)];
        } else {
          cancelled := cancelled + {ctx};
          ctx := ctx + 1;
          calls := calls + [Stopped];
        }
      }
    }

    /** Handles the Ready events in turn, then the end of the outer context. */
    method RunRaft(readies: seq<Ready>)
      requires Variables() == FRESH
      modifies this
      ensures Variables() == Halt(Run(Observations(id, readies), false))
    {
      for i := 0 to |readies|
        invariant Variables() == Run(Observations(id, readies[..i]), false)
      {
        ObserveReady(readies[i]);
        assert Observations(id, readies[..i + 1])[..i] == Observations(id, readies[..i]);
      }
      assert readies[..|readies|] == readies;
      cancelled := cancelled + {ctx};
      if isLeader {
        calls := calls + [Stopped];
      }
      assert Run(Observations(id, readies), false).calls + [] == Run(Observations(id, readies), false).calls;
    }
  }
}
