/** The filter between client-go's leadership callbacks and the user's (kube/locker.go): two shared
    atomics, with any number of callbacks running concurrently.  A move is one atomic operation of
    one callback, or its call of the user's hook, which comes after the operation that decided it.
    Both user hooks are assumed to be set. */
module Elector {

  /** A call of a user hook, by its cause: the first report, a fall, or a rise of leadership. */
  datatype Report = InitialStop | Stop | Start

  /** A running callback: about to do what its name says, or done.  The stop callback and the
      new-leader callback have the same body. */
  datatype Thread =
    | StoringInitialized                // OnStartedLeading, first operation
    | SwappingLeaderOn                  // OnStartedLeading, second operation
    | SwappingInitialized               // OnStoppedLeading or OnNewLeader, first operation
    | SwappingLeaderOff                 // OnStoppedLeading or OnNewLeader, second operation
    | Calling(report: Report)           // a hook call is decided and not yet made
    | Finished

  /** The atomics, the callbacks, the hook calls decided by atomic operations and those made. */
  datatype State = State(initialized: bool, isLeader: bool, threads: seq<Thread>,
                         decided: seq<Report>, called: seq<Report>)

  datatype Move = Enter(starting: bool) | Act(i: nat)

  const FRESH := State(false, false, [], [], [])

  function Entering(starting: bool): Thread { if starting then StoringInitialized else SwappingInitialized }

  /** What one atomic operation does to the atomics and to its thread. */
  function Operate(initialized: bool, isLeader: bool, t: Thread): (bool, bool, Thread) {
    match t
    case StoringInitialized => (true, isLeader, SwappingLeaderOn)
    case SwappingLeaderOn => (initialized, true, if isLeader then Finished else Calling(Start))
    case SwappingInitialized => (true, isLeader, if initialized then SwappingLeaderOff else Calling(InitialStop))
    case SwappingLeaderOff => (initialized, false, if isLeader then Calling(Stop) else Finished)
    case _ => (initialized, isLeader, Finished)
  }

  function Next(s: State, move: Move): State {
    match move
    case Enter(starting) => s.(threads := s.threads + [Entering(starting)])
    case Act(i) =>
      if |s.threads| <= i then s
      else if s.threads[i].Calling? then
        s.(threads := s.threads[i := Finished], called := s.called + [s.threads[i].report])
      else
        var (initialized, isLeader, t) := Operate(s.initialized, s.isLeader, s.threads[i]);
        State(initialized, isLeader, s.threads[i := t],
              if t.Calling? then s.decided + [t.report] else s.decided, s.called)
  }

  function Run(s: State, moves: seq<Move>): State {
    if moves == [] then s else Next(Run(s, moves[..|moves| - 1]), moves[|moves| - 1])
  }

  /** The reports a user expects: perhaps one initial stop, then starts and stops in alternation. */
  datatype Phase = Silent | Following | Leading | Confused

  function After(phase: Phase, report: Report): Phase {
    match (phase, report)
    case (Silent, InitialStop) => Following
    case (Silent, Start) => Leading
    case (Following, Start) => Leading
    case (Leading, Stop) => Following
    case _ => Confused
  }

  function PhaseOf(reports: seq<Report>): Phase {
    if reports == [] then Silent
    else After(PhaseOf(reports[..|reports| - 1]), reports[|reports| - 1])
  }

  function Count(reports: seq<Report>, r: Report): nat {
    if reports == [] then 0
    else Count(reports[..|reports| - 1], r) + if reports[|reports| - 1] == r then 1 else 0
  }

  /** An expected sequence of reports determines the counts of its kinds. */
  lemma {:induction false} PhaseCounts(reports: seq<Report>)
    requires PhaseOf(reports) != Confused
    ensures Count(reports, Start) == Count(reports, Stop) + if PhaseOf(reports) == Leading then 1 else 0
    ensures Count(reports, InitialStop) <= 1
    ensures PhaseOf(reports) == Silent ==> Count(reports, InitialStop) == 0
  {
    if reports != [] {
      PhaseCounts(reports[..|reports| - 1]);
    }
  }

  lemma PhaseAppend(reports: seq<Report>, r: Report)
    ensures PhaseOf(reports + [r]) == After(PhaseOf(reports), r)
  {
    assert (reports + [r])[..|reports|] == reports;
  }

  // ----- what the atomic operations decide

  /** The atomics agree with the decisions so far. */
  ghost predicate Sound(initialized: bool, isLeader: bool, decided: seq<Report>) {
    && (isLeader ==> initialized)
    && (!initialized ==> decided == [])
    && PhaseOf(decided) != Confused
    && (isLeader <==> PhaseOf(decided) == Leading)
  }

  /** A callback past its first operation has left `initialized` set. */
  predicate Ready(initialized: bool, t: Thread) {
    t.SwappingLeaderOn? || t.SwappingLeaderOff? ==> initialized
  }

  ghost predicate Inv(s: State) {
    && Sound(s.initialized, s.isLeader, s.decided)
    && forall j :: 0 <= j < |s.threads| ==> Ready(s.initialized, s.threads[j])
  }

  lemma OperateSound(initialized: bool, isLeader: bool, t: Thread, decided: seq<Report>)
    requires Sound(initialized, isLeader, decided) && Ready(initialized, t) && !t.Calling?
    ensures var (initialized', isLeader', t') := Operate(initialized, isLeader, t);
            && Sound(initialized', isLeader', if t'.Calling? then decided + [t'.report] else decided)
            && Ready(initialized', t') && (initialized ==> initialized')
  {
    var (_, _, t') := Operate(initialized, isLeader, t);
    if t'.Calling? {
      PhaseAppend(decided, t'.report);
    }
  }

  lemma ActInv(s: State, i: nat)
    requires Inv(s) && i < |s.threads|
    ensures Inv(Next(s, Act(i)))
  {
    if !s.threads[i].Calling? {
      OperateSound(s.initialized, s.isLeader, s.threads[i], s.decided);
    }
  }

  lemma {:induction false} RunInv(moves: seq<Move>)
    ensures Inv(Run(FRESH, moves))
  {
    if moves != [] {
      var (s, move) := (Run(FRESH, moves[..|moves| - 1]), moves[|moves| - 1]);
      RunInv(moves[..|moves| - 1]);
      if move.Act? && move.i < |s.threads| {
        ActInv(s, move.i);
      }
    }
  }

  /** Whatever callbacks run and however they interleave, the decisions alternate as expected and
      `isLeader` is exactly the state they end in. */
  lemma DecisionsAlternate(moves: seq<Move>)
    ensures var s := Run(FRESH, moves);
            && (s.isLeader ==> s.initialized)
            && PhaseOf(s.decided) != Confused
            && (s.isLeader <==> PhaseOf(s.decided) == Leading)
            && Count(s.decided, Start) - Count(s.decided, Stop) == (if s.isLeader then 1 else 0)
            && Count(s.decided, InitialStop) <= 1
  {
    RunInv(moves);
    PhaseCounts(Run(FRESH, moves).decided);
  }

  /** The short-circuit loses no falling edge: whichever operation is the last of a stop or
      new-leader callback, leadership is off right after it, and a leader losing it there has its
      stop decided. */
  lemma StopTakesEffect(moves: seq<Move>, i: nat)
    requires i < |Run(FRESH, moves).threads|
    requires var t := Run(FRESH, moves).threads[i]; t.SwappingInitialized? || t.SwappingLeaderOff?
    ensures var (s, s') := (Run(FRESH, moves), Next(Run(FRESH, moves), Act(i)));
            s'.threads[i] != SwappingLeaderOff ==>
              && !s'.isLeader
              && s'.decided == s.decided + if s.isLeader then [Stop] else if !s.initialized then [InitialStop] else []
  {
    RunInv(moves);
  }

  /** A start takes effect: right after its swap leadership is on, and a follower gaining it there has
      its start decided. */
  lemma StartTakesEffect(moves: seq<Move>, i: nat)
    requires i < |Run(FRESH, moves).threads| && Run(FRESH, moves).threads[i].SwappingLeaderOn?
    ensures var (s, s') := (Run(FRESH, moves), Next(Run(FRESH, moves), Act(i)));
            s'.isLeader && s'.decided == s.decided + if s.isLeader then [] else [Start]
  {
  }

  /** Something has been decided, or a start has still to. */
  ghost predicate Spoken(s: State) {
    s.initialized && s.decided == [] ==> exists j :: 0 <= j < |s.threads| && s.threads[j].SwappingLeaderOn?
  }

  lemma SpokenNext(s: State, move: Move)
    requires Inv(s) && Spoken(s)
    ensures Spoken(Next(s, move))
  {
    var s' := Next(s, move);
    if s'.initialized && s'.decided == [] {
      if s.initialized {
        var j :| 0 <= j < |s.threads| && s.threads[j].SwappingLeaderOn?;
        assert s'.threads[j].SwappingLeaderOn?;
      } else {
        assert s'.threads[move.i].SwappingLeaderOn?;
      }
    }
  }

  lemma {:induction false} SpokenRun(moves: seq<Move>)
    ensures Spoken(Run(FRESH, moves))
  {
    if moves != [] {
      SpokenRun(moves[..|moves| - 1]);
      RunInv(moves[..|moves| - 1]);
      SpokenNext(Run(FRESH, moves[..|moves| - 1]), moves[|moves| - 1]);
    }
  }

  /** In every run, once `initialized` is set and no start stands before its swap, the user has been or
      will be told something. */
  lemma {:induction false} NeverSilent(moves: seq<Move>)
    ensures var s := Run(FRESH, moves);
            s.initialized && (forall j :: 0 <= j < |s.threads| ==> !s.threads[j].SwappingLeaderOn?) ==> s.decided != []
  {
    SpokenRun(moves);
  }

  /** The stop and new-leader callbacks are the only ones that report an initial stop, and only first. */
  ghost predicate Opened(s: State, byStop: bool) {
    s.initialized && if byStop then s.decided != [] && s.decided[0] == InitialStop else InitialStop !in s.decided
  }

  lemma OpenedNext(s: State, move: Move, byStop: bool)
    requires Opened(s, byStop)
    ensures Opened(Next(s, move), byStop)
  {
  }

  lemma {:induction false} OpenedRun(moves: seq<Move>, k: nat, byStop: bool)
    requires k <= |moves| && Opened(Run(FRESH, moves[..k]), byStop)
    ensures Opened(Run(FRESH, moves), byStop)
    decreases |moves|
  {
    if k < |moves| {
      assert moves[..|moves| - 1][..k] == moves[..k];
      OpenedRun(moves[..|moves| - 1], k, byStop);
      OpenedNext(Run(FRESH, moves[..|moves| - 1]), moves[|moves| - 1], byStop);
    } else {
      assert moves[..k] == moves;
    }
  }

  /** Until the first atomic operation every callback stands before its first one. */
  lemma {:induction false} UntouchedRun(moves: seq<Move>)
    ensures var s := Run(FRESH, moves);
            !s.initialized ==>
              && s.decided == []
              && forall j :: 0 <= j < |s.threads| ==>
                   s.threads[j].StoringInitialized? || s.threads[j].SwappingInitialized?
  {
    if moves != [] {
      UntouchedRun(moves[..|moves| - 1]);
    }
  }

  lemma Steps(moves: seq<Move>, k: nat)
    requires k < |moves|
    ensures Run(FRESH, moves[..k + 1]) == Next(Run(FRESH, moves[..k]), moves[k])
  {
    assert moves[..k + 1][..k] == moves[..k];
  }

  /** In every run the first atomic operation settles the first report: made by a stop or new-leader
      callback, the first report is the initial stop; made by a start callback, there is no initial
      stop at all. */
  lemma FirstOperationDecides(moves: seq<Move>, k: nat)
    requires k < |moves| && moves[k].Act? && moves[k].i < |Run(FRESH, moves[..k]).threads|
    requires !Run(FRESH, moves[..k]).initialized
    ensures var (t, decided) := (Run(FRESH, moves[..k]).threads[moves[k].i], Run(FRESH, moves).decided);
            && (t.SwappingInitialized? ==> decided != [] && decided[0] == InitialStop)
            && (t.StoringInitialized? ==> InitialStop !in decided)
            && (t.SwappingInitialized? || t.StoringInitialized?)
  {
    var s := Run(FRESH, moves[..k]);
    RunInv(moves[..k]);
    UntouchedRun(moves[..k]);
    Steps(moves, k);
    OpenedRun(moves, k + 1, s.threads[moves[k].i].SwappingInitialized?);
  }

  // ----- what the user sees

  /** How many decided calls of this kind have not been made. */
  function Outstanding(threads: seq<Thread>, r: Report): nat {
    if threads == [] then 0
    else Outstanding(threads[..|threads| - 1], r) + if threads[|threads| - 1] == Calling(r) then 1 else 0
  }

  lemma {:induction false} OutstandingUpdate(threads: seq<Thread>, i: nat, t: Thread, r: Report)
    requires i < |threads|
    ensures Outstanding(threads[i := t], r) + (if threads[i] == Calling(r) then 1 else 0)
         == Outstanding(threads, r) + if t == Calling(r) then 1 else 0
  {
    var n := |threads| - 1;
    if i == n {
      assert threads[i := t][..n] == threads[..n];
    } else {
      OutstandingUpdate(threads[..n], i, t, r);
      assert threads[i := t][..n] == threads[..n][i := t];
    }
  }

  ghost predicate Conserved(s: State, r: Report) {
    Count(s.decided, r) == Count(s.called, r) + Outstanding(s.threads, r)
  }

  lemma CountAppend(reports: seq<Report>, q: Report, r: Report)
    ensures Count(reports + [q], r) == Count(reports, r) + if q == r then 1 else 0
  {
    assert (reports + [q])[..|reports|] == reports;
  }

  lemma ActConserves(s: State, i: nat, r: Report)
    requires Conserved(s, r) && i < |s.threads|
    ensures Conserved(Next(s, Act(i)), r)
  {
    var (t, t') := (s.threads[i], Next(s, Act(i)).threads[i]);
    OutstandingUpdate(s.threads, i, t', r);
    if t.Calling? {
      CountAppend(s.called, t.report, r);
    } else if t'.Calling? {
      CountAppend(s.decided, t'.report, r);
    }
  }

  /** Of each kind, every decided call is made once or still to be made: none is lost, repeated or
      invented. */
  lemma {:induction false} CallsConserved(moves: seq<Move>, r: Report)
    ensures var s := Run(FRESH, moves);
            Count(s.decided, r) == Count(s.called, r) + Outstanding(s.threads, r)
  {
    if moves != [] {
      var (s, move) := (Run(FRESH, moves[..|moves| - 1]), moves[|moves| - 1]);
      CallsConserved(moves[..|moves| - 1], r);
      if move.Enter? {
        assert Next(s, move).threads[..|s.threads|] == s.threads;
      } else if move.i < |s.threads| {
        ActConserves(s, move.i, r);
      }
    }
  }

  /** A start decided first and called last: the user sees it stopped, then started, while
      leadership is off. */
  const OVERTAKEN: seq<Move> :=
    [Enter(true), Enter(false), Act(0), Act(0), Act(1), Act(1), Act(1), Act(0)]

  lemma StartDecided()
    ensures Run(FRESH, OVERTAKEN[..4]) == State(true, true, [Calling(Start), SwappingInitialized], [Start], [])
  {
    var m := OVERTAKEN;
    Steps(m, 0);
    Steps(m, 1);
    assert Run(FRESH, m[..2]) == State(false, false, [StoringInitialized, SwappingInitialized], [], []);
    Steps(m, 2);
    Steps(m, 3);
  }

  lemma BothDecided()
    ensures Run(FRESH, OVERTAKEN[..6]) == State(true, false, [Calling(Start), Calling(Stop)], [Start, Stop], [])
  {
    StartDecided();
    Steps(OVERTAKEN, 4);
    assert Run(FRESH, OVERTAKEN[..5]) == State(true, true, [Calling(Start), SwappingLeaderOff], [Start], []);
    Steps(OVERTAKEN, 5);
  }

  lemma StopOvertakesStart()
    ensures var s := Run(FRESH, OVERTAKEN);
            && s.decided == [Start, Stop] && s.called == [Stop, Start] && !s.isLeader
            && PhaseOf(s.called) == Confused
  {
    BothDecided();
    var m := OVERTAKEN;
    Steps(m, 6);
    Steps(m, 7);
    assert m[..8] == m;
    PhaseAppend([], Stop);
    PhaseAppend([Stop], Start);
    assert [] + [Stop] == [Stop] && [Stop] + [Start] == [Stop, Start];
  }

  /** The outstanding calls made in some order; a number naming no outstanding call does nothing. */
  function CallHooks(s: State, order: seq<nat>): State {
    if order == [] then s
    else
      var s' := CallHooks(s, order[..|order| - 1]);
      var i := order[|order| - 1];
      if i < |s'.threads| && s'.threads[i].Calling? then Next(s', Act(i)) else s'
  }

  /** However the outstanding calls are scheduled, the user sees the expected alternation. */
  ghost predicate AlternatesAnyway(s: State) {
    forall order: seq<nat> :: PhaseOf(CallHooks(s, order).called) != Confused
  }

  /** The move decides a hook call while another decided call has not been made. */
  ghost predicate Overlaps(s: State, move: Move) {
    && move.Act? && move.i < |s.threads|
    && !s.threads[move.i].Calling? && Next(s, move).threads[move.i].Calling?
    && exists j :: 0 <= j < |s.threads| && s.threads[j].Calling?
  }

  ghost predicate Quiet(threads: seq<Thread>) {
    forall j :: 0 <= j < |threads| ==> !threads[j].Calling?
  }

  ghost predicate OnlyCalling(threads: seq<Thread>, i: int) {
    0 <= i < |threads| && threads[i].Calling? && forall j :: 0 <= j < |threads| && j != i ==> !threads[j].Calling?
  }

  /** Calls have been made in the order decided, and at most the last is outstanding. */
  ghost predicate Prompt(s: State) {
    || (Quiet(s.threads) && s.called == s.decided)
    || exists i :: OnlyCalling(s.threads, i) && s.decided == s.called + [s.threads[i].report]
  }

  lemma PromptNext(s: State, move: Move)
    requires Prompt(s) && !Overlaps(s, move)
    ensures Prompt(Next(s, move))
  {
    var s' := Next(s, move);
    if Quiet(s.threads) {
      if move.Act? && move.i < |s.threads| && s'.threads[move.i].Calling? {
        assert OnlyCalling(s'.threads, move.i);
      }
    } else {
      var i :| OnlyCalling(s.threads, i) && s.decided == s.called + [s.threads[i].report];
      if move != Act(i) {
        assert OnlyCalling(s'.threads, i);
      }
    }
  }

  lemma PromptAlternates(s: State)
    requires Prompt(s) && PhaseOf(s.decided) != Confused
    ensures PhaseOf(s.called) != Confused
  {
    if i :| OnlyCalling(s.threads, i) && s.decided == s.called + [s.threads[i].report] {
      PhaseAppend(s.called, s.threads[i].report);
    }
  }

  lemma {:induction false} PromptIsSafe(s: State, order: seq<nat>)
    requires Prompt(s)
    ensures Prompt(CallHooks(s, order)) && CallHooks(s, order).decided == s.decided
  {
    if order != [] {
      var (s', i) := (CallHooks(s, order[..|order| - 1]), order[|order| - 1]);
      PromptIsSafe(s, order[..|order| - 1]);
      if i < |s'.threads| && s'.threads[i].Calling? {
        PromptNext(s', Act(i));
      }
    }
  }

  /** Two expected reports in the wrong order are not expected. */
  lemma Swapped(reports: seq<Report>, q: Report, r: Report)
    requires PhaseOf(reports + [q] + [r]) != Confused
    ensures PhaseOf(reports + [r] + [q]) == Confused
  {
    PhaseAppend(reports, q);
    PhaseAppend(reports, r);
    PhaseAppend(reports + [q], r);
    PhaseAppend(reports + [r], q);
  }

  /** Right after an overlap the two outstanding calls can be made in the wrong order. */
  lemma OverlapIsUnsafe(s: State, move: Move)
    requires Prompt(s) && Overlaps(s, move) && PhaseOf(Next(s, move).decided) != Confused
    ensures !AlternatesAnyway(Next(s, move))
  {
    var (s', j) := (Next(s, move), move.i);
    var i :| OnlyCalling(s.threads, i) && s.decided == s.called + [s.threads[i].report];
    var (q, r) := (s.threads[i].report, s'.threads[j].report);
    Swapped(s.called, q, r);
    assert [j, i][..1] == [j] && [j][..0] == [];
    assert CallHooks(s', [j]).called == s.called + [r];
    assert CallHooks(s', [j, i]).called == s.called + [r] + [q];
  }

  lemma PromptIsSafely(moves: seq<Move>)
    requires Prompt(Run(FRESH, moves))
    ensures AlternatesAnyway(Run(FRESH, moves))
  {
    var s := Run(FRESH, moves);
    RunInv(moves);
    forall order: seq<nat> ensures PhaseOf(CallHooks(s, order).called) != Confused {
      PromptIsSafe(s, order);
      PromptAlternates(CallHooks(s, order));
    }
  }

  lemma {:induction false} PromptUntil(moves: seq<Move>, k: nat)
    requires k <= |moves| && forall j :: 0 <= j < k ==> !Overlaps(Run(FRESH, moves[..j]), moves[j])
    ensures Prompt(Run(FRESH, moves[..k]))
  {
    if k > 0 {
      PromptUntil(moves, k - 1);
      assert moves[..k][..k - 1] == moves[..k - 1];
      PromptNext(Run(FRESH, moves[..k - 1]), moves[k - 1]);
    }
  }

  lemma {:induction false} FirstTrue(flags: seq<bool>) returns (k: nat)
    requires true in flags
    ensures k < |flags| && flags[k] && forall j :: 0 <= j < k ==> !flags[j]
  {
    if flags[0] {
      k := 0;
    } else {
      assert flags == [flags[0]] + flags[1..];
      k := FirstTrue(flags[1..]);
      k := k + 1;
    }
  }

  lemma FirstOverlap(moves: seq<Move>) returns (k: nat)
    requires exists j :: 0 <= j < |moves| && Overlaps(Run(FRESH, moves[..j]), moves[j])
    ensures k < |moves| && Overlaps(Run(FRESH, moves[..k]), moves[k])
    ensures forall j :: 0 <= j < k ==> !Overlaps(Run(FRESH, moves[..j]), moves[j])
  {
    var flags := seq(|moves|, j requires 0 <= j < |moves| => Overlaps(Run(FRESH, moves[..j]), moves[j]));
    var j :| 0 <= j < |moves| && Overlaps(Run(FRESH, moves[..j]), moves[j]);
    assert flags[j];
    k := FirstTrue(flags);
    assert forall i :: 0 <= i < k ==> flags[i] == Overlaps(Run(FRESH, moves[..i]), moves[i]);
  }

  ghost predicate NeverOverlaps(moves: seq<Move>) {
    forall k :: 0 <= k < |moves| ==> !Overlaps(Run(FRESH, moves[..k]), moves[k])
  }

  ghost predicate AlwaysAlternatesAnyway(moves: seq<Move>) {
    forall k :: 0 <= k <= |moves| ==> AlternatesAnyway(Run(FRESH, moves[..k]))
  }

  lemma NoOverlapIsSafe(moves: seq<Move>)
    requires NeverOverlaps(moves)
    ensures AlwaysAlternatesAnyway(moves)
  {
    forall k | 0 <= k <= |moves| ensures AlternatesAnyway(Run(FRESH, moves[..k])) {
      PromptUntil(moves, k);
      PromptIsSafely(moves[..k]);
    }
  }

  lemma SomeOverlapIsUnsafe(moves: seq<Move>)
    requires !NeverOverlaps(moves)
    ensures !AlwaysAlternatesAnyway(moves)
  {
    var k := FirstOverlap(moves);
    PromptUntil(moves, k);
    Steps(moves, k);
    RunInv(moves[..k + 1]);
    OverlapIsUnsafe(Run(FRESH, moves[..k]), moves[k]);
    assert !AlternatesAnyway(Run(FRESH, moves[..k + 1]));
  }

  /** On every run: the user sees the expected alternation whatever the timing of the outstanding
      calls, at every moment, if and only if no operation decides a call while another decided call
      has not been made. */
  lemma AlternatesAnywayIff(moves: seq<Move>)
    ensures (forall k :: 0 <= k <= |moves| ==> AlternatesAnyway(Run(FRESH, moves[..k])))
       <==> (forall k :: 0 <= k < |moves| ==> !Overlaps(Run(FRESH, moves[..k]), moves[k]))
  {
    if NeverOverlaps(moves) {
      NoOverlapIsSafe(moves);
    } else {
      SomeOverlapIsUnsafe(moves);
    }
  }

  lemma OnlySilence(reports: seq<Report>)
    requires PhaseOf(reports) == Silent
    ensures reports == []
  {
  }

  lemma Nothing(reports: seq<Report>)
    requires forall r: Report :: Count(reports, r) == 0
    ensures reports == []
  {
    if reports != [] {
      assert Count(reports, reports[|reports| - 1]) > 0;
    }
  }

  lemma LastDecided(a: seq<Report>, b: seq<Report>)
    requires PhaseOf(a) != Confused && PhaseOf(b) != Confused && a != [] && b != []
    requires forall r: Report :: Count(a, r) == Count(b, r)
    ensures a[|a| - 1] == b[|b| - 1]
  {
    PhaseCounts(a);
    PhaseCounts(b);
    var (m, n) := (|a| - 1, |b| - 1);
    if a[m].InitialStop? {
      OnlySilence(a[..m]);
    }
    if b[n].InitialStop? {
      OnlySilence(b[..n]);
    }
  }

  /** Expected sequences of the same reports, counted by kind, are the same sequence. */
  lemma {:induction false} CountsDecide(a: seq<Report>, b: seq<Report>)
    requires PhaseOf(a) != Confused && PhaseOf(b) != Confused
    requires forall r: Report :: Count(a, r) == Count(b, r)
    ensures a == b
    decreases |a|
  {
    PhaseCounts(a);
    PhaseCounts(b);
    if a == [] {
      Nothing(b);
    } else {
      if b == [] { Nothing(a); }
      LastDecided(a, b);
      var (m, n) := (|a| - 1, |b| - 1);
      CountsDecide(a[..m], b[..n]);
      assert a == a[..m] + [a[m]] && b == b[..n] + [b[n]];
    }
  }

  lemma {:induction false} NothingOutstanding(threads: seq<Thread>, r: Report)
    requires Quiet(threads)
    ensures Outstanding(threads, r) == 0
  {
    if threads != [] {
      NothingOutstanding(threads[..|threads| - 1], r);
    }
  }

  /** On every run, with no call outstanding: the user has seen the expected alternation if and only
      if the calls were made in the order in which they were decided. */
  lemma AlternatesIffInOrder(moves: seq<Move>)
    requires Quiet(Run(FRESH, moves).threads)
    ensures var s := Run(FRESH, moves); PhaseOf(s.called) != Confused <==> s.called == s.decided
  {
    var s := Run(FRESH, moves);
    DecisionsAlternate(moves);
    if PhaseOf(s.called) != Confused {
      forall r: Report ensures Count(s.called, r) == Count(s.decided, r) {
        CallsConserved(moves, r);
        NothingOutstanding(s.threads, r);
      }
      CountsDecide(s.called, s.decided);
    }
  }

  /** The shared atomics, the callbacks running over them, and the hooks called so far. */
  class Filter {
    var initialized: bool
    var isLeader: bool
    var threads: seq<Thread>
    var decided: seq<Report>
    var called: seq<Report>

    function Snapshot(): State
      reads this
    {
      State(initialized, isLeader, threads, decided, called)
    }

    constructor ()
      ensures Snapshot() == FRESH
    {
      initialized, isLeader, threads, decided, called := false, false, [], [], [];
    }

    /** Decides the hook call of callback `i`, or that there is none. */
    method Decide(i: nat, hook: bool, report: Report)
      requires i < |threads|
      modifies this`threads, this`decided
      ensures threads == old(threads)[i := if hook then Calling(report) else Finished]
      ensures decided == if hook then old(decided) + [report] else old(decided)
    {
      if hook {
        decided := decided + [report];
      }
      threads := threads[i := if hook then Calling(report) else Finished];
    }

    /** The next atomic operation of callback `i`, or the hook call it has decided. */
    method Operation(i: nat)
      requires i < |threads|
      modifies this
      ensures Snapshot() == Next(old(Snapshot()), Act(i))
    {
      var was;
      match threads[i] {
        case StoringInitialized =>
          initialized := true;
          threads := threads[i := SwappingLeaderOn];
        case SwappingLeaderOn =>
          was, isLeader := isLeader, true;
          Decide(i, !was, Start);
        case SwappingInitialized =>
          was, initialized := initialized, true;
          if was {
            threads := threads[i := SwappingLeaderOff];
          } else {
            Decide(i, true, InitialStop);
          }
        case SwappingLeaderOff =>
          was, isLeader := isLeader, false;
          Decide(i, was, Stop);
        case Calling(report) =>
          called := called + [report];
          threads := threads[i := Finished];
        case Finished =>
          assert threads[i := Finished] == threads;
      }
    }

    /** The moves of one callback on its own: it enters, makes at most two operations and calls. */
    ghost function Alone(starting: bool): State
      reads this
    {
      var n := |threads|;
      var entered := Next(Snapshot(), Enter(starting));
      Next(Next(Next(entered, Act(n)), Act(n)), Act(n)).(threads := threads)
    }

    /** OnStartedLeading with nothing interleaved. */
    method OnStartedLeading()
      modifies this
      ensures Snapshot() == old(Alone(true))
    {
      initialized := true;
      var was := isLeader;
      isLeader := true;
      if !was {
        decided, called := decided + [Start], called + [Start];
      }
    }

    /** OnStoppedLeading, or OnNewLeader, with nothing interleaved. */
    method OnStoppedLeading()
      modifies this
      ensures Snapshot() == old(Alone(false))
    {
      var was := initialized;
      initialized := true;
      var fell := false;
      if was {
        fell := isLeader;
        isLeader := false;
      }
      if !was || fell {
        var report := if was then Stop else InitialStop;
        decided, called := decided + [report], called + [report];
      }
    }
  }
}
