/** What becomes of the calls of a candidate deposed by another one's write to the primary.

    Until it reads the primary again, its Updates fail at the primary, with one exception: an Update
    already past the primary at that write goes on overwriting secondaries. */
module LockFencing {
  import opened Wrappers
  import opened Leases
  import opened MultiLock
  import opened MultiLockLaws
  import opened LockProtocol

  /** The candidate's cached version of the primary can no longer be swapped. */
  ghost predicate Stale(s: State, c: nat)
    requires Shaped(s) && c < |s.sessions|
  {
    var cached := s.sessions[c].client.cache[0];
    s.slots[0].Present? && (cached.None? || cached.value < s.slots[0].version)
  }

  /** Another candidate's move changes the primary. */
  ghost predicate Deposes(s: State, write: Move, c: nat)
    requires Shaped(s)
  {
    write.who != c && Next(s, write).slots[0] != s.slots[0]
  }

  /** The candidate's Get reads the primary; a Get whose call is lost has not. */
  ghost predicate ReadsPrimary(s: State, c: nat, move: Move)
    requires Shaped(s) && c < |s.sessions|
  {
    move.Act? && move.who == c && s.sessions[c].client.op.GetPrimary? && move.fault.Clean?
  }

  /** A primary write by anyone else deposes `c`. */
  lemma WriteDeposes(s: State, move: Move, c: nat)
    requires Inv(s) && c < |s.sessions| && Deposes(s, move, c)
    ensures Stale(Next(s, move), c)
  {
  }

  /** `c` is stale, and past the primary only in a call in which it was when last seen as `was`. */
  ghost predicate Fenced(s: State, c: nat, was: Session)
    requires Shaped(s) && c < |s.sessions|
  {
    var me := s.sessions[c];
    Stale(s, c) && (PastPrimary(me.client.op) ==> PastPrimary(was.client.op) && me.call == was.call)
  }

  lemma FencedNext(s: State, c: nat, was: Session, move: Move)
    requires Inv(s) && c < |s.sessions| && Fenced(s, c, was) && !ReadsPrimary(s, c, move)
    ensures Fenced(Next(s, move), c, was)
  {
    if move.who < |s.sessions| && move.Act? && Busy(s, move.who) {
      PrimaryChange(s.slots, s.sessions[move.who].client, move.fault);
    }
  }

  ghost predicate NeverReadsPrimary(s: State, c: nat, moves: seq<Move>)
    requires Shaped(s) && c < |s.sessions|
  {
    forall k :: 0 <= k < |moves| ==> !ReadsPrimary(Run(s, moves[..k]), c, moves[k])
  }

  lemma {:induction false} FencedRun(s: State, c: nat, moves: seq<Move>, k: nat)
    requires Inv(s) && c < |s.sessions| && Stale(s, c) && NeverReadsPrimary(s, c, moves) && k <= |moves|
    ensures Inv(Run(s, moves[..k])) && Fenced(Run(s, moves[..k]), c, s.sessions[c])
    decreases k
  {
    if k > 0 {
      FencedRun(s, c, moves, k - 1);
      RunPrefix(s, moves, k - 1);
      NextInv(Run(s, moves[..k - 1]), moves[k - 1]);
      FencedNext(Run(s, moves[..k - 1]), c, s.sessions[c], moves[k - 1]);
    }
  }

  /** The next lease call of a fenced candidate's Update, if that is at the primary. */
  lemma PrimaryRefused(s: State, c: nat, fault: Fault)
    requires Shaped(s) && c < |s.sessions| && Stale(s, c) && s.sessions[c].client.op.UpdatePrimary?
    ensures var s' := Next(s, Act(c, fault));
            s'.slots == s.slots && s'.sessions[c].client.op.Resting? && s'.sessions[c].client.op.answer.Failed?
  {
  }

  /** Once another candidate's primary write succeeds, and until `c` next reads the primary, every
      Update of `c` that is still at the primary, begun before the write or after it, fails there and
      changes no lease; and one that is past the primary was past it in the same call at that write. */
  lemma Fencing(s: State, write: Move, c: nat, moves: seq<Move>, fault: Fault)
    requires Inv(s) && c < |s.sessions| && Deposes(s, write, c)
    requires NeverReadsPrimary(Next(s, write), c, moves)
    ensures var (was, now) := (Next(s, write).sessions[c], Run(Next(s, write), moves).sessions[c]);
            var (before, after) := (Run(Next(s, write), moves), Next(Run(Next(s, write), moves), Act(c, fault)));
            && (now.client.op.UpdatePrimary? ==>
                  && after.slots == before.slots
                  && after.sessions[c].client.op.Resting? && after.sessions[c].client.op.answer.Failed?)
            && (PastPrimary(now.client.op) ==> PastPrimary(was.client.op) && now.call == was.call)
  {
    NextInv(s, write);
    WriteDeposes(s, write, c);
    FencedRun(Next(s, write), c, moves, |moves|);
    assert moves[..|moves|] == moves;
    if Run(Next(s, write), moves).sessions[c].client.op.UpdatePrimary? {
      PrimaryRefused(Run(Next(s, write), moves), c, fault);
    }
  }

  // ----- exactly which Updates still write

  /** The next lease call of `c` belongs to an Update and changes a lease. */
  ghost predicate UpdateWrites(s: State, c: nat, fault: Fault)
    requires Shaped(s) && c < |s.sessions|
  {
    Updates(s.sessions[c].client.op) && Next(s, Act(c, fault)).slots != s.slots
  }

  /** An Update of `c` can still change a lease before `c` next reads the primary. */
  ghost predicate MayWrite(s: State, c: nat)
    requires Shaped(s) && c < |s.sessions|
  {
    exists moves, fault :: NeverReadsPrimary(s, c, moves) && UpdateWrites(Run(s, moves), c, fault)
  }

  /** The Update is past the primary, and what it stands before is not sure to be refused: it is about
      to re-read a secondary, or to create one that is missing, or to overwrite one it has the current
      version of. */
  predicate CanWrite(slots: seq<Slot>, c: Client)
    requires WellFormed(slots, c)
  {
    match c.op
    case RefreshAt(_, _) => true
    case CreateMissing(i, _) => slots[i].Absent?
    case UpdateAt(i, _) => slots[i].Present? && c.cache[i] == Some(slots[i].version)
    case _ => false
  }

  /** No cached version is ahead of its lease. */
  ghost predicate Cached(slots: seq<Slot>, c: Client)
    requires WellFormed(slots, c)
  {
    forall j :: 0 <= j < |slots| && c.cache[j].Some? ==> slots[j].Present? && c.cache[j].value <= slots[j].version
  }

  /** Leases are not deleted and versions do not fall. */
  predicate Later(slot: Slot, slot': Slot) {
    slot' == slot || (slot'.Present? && (slot.Present? ==> slot.version < slot'.version))
  }

  /** A lease call moves no lease back, and leaves the caller with no version ahead of its lease. */
  lemma StepLater(slots: seq<Slot>, c: Client, fault: Fault)
    requires WellFormed(slots, c) && !c.op.Resting? && Cached(slots, c)
    ensures var (slots', c') := Step(slots, c, fault);
            (forall j :: 0 <= j < |slots| ==> Later(slots[j], slots'[j])) && Cached(slots', c')
  {
    var (slots', c') := Step(slots, c, fault);
    forall j | 0 <= j < |slots|
      ensures Later(slots[j], slots'[j])
      ensures c'.cache[j].Some? ==> slots'[j].Present? && c'.cache[j].value <= slots'[j].version
    {
      if j != Target(c.op) {
        StepFrame(slots, c, fault, j);
      }
    }
  }

  ghost predicate AllCached(s: State)
    requires Shaped(s)
  {
    forall i :: 0 <= i < |s.sessions| ==> Cached(s.slots, s.sessions[i].client)
  }

  lemma StillCached(slots: seq<Slot>, slots': seq<Slot>, c: Client)
    requires WellFormed(slots, c) && WellFormed(slots', c) && Cached(slots, c)
    requires forall j :: 0 <= j < |slots| ==> Later(slots[j], slots'[j])
    ensures Cached(slots', c)
  {
    forall j | 0 <= j < |slots| && c.cache[j].Some?
      ensures slots'[j].Present? && c.cache[j].value <= slots'[j].version
    {
      assert Later(slots[j], slots'[j]);
    }
  }

  lemma NextCached(s: State, move: Move)
    requires Shaped(s) && AllCached(s)
    ensures AllCached(Next(s, move))
    ensures forall j :: 0 <= j < |s.slots| ==> Later(s.slots[j], Next(s, move).slots[j])
  {
    var s' := Next(s, move);
    if move.who < |s.sessions| && move.Act? && Busy(s, move.who) {
      StepLater(s.slots, s.sessions[move.who].client, move.fault);
    }
    forall i | 0 <= i < |s.sessions| ensures Cached(s'.slots, s'.sessions[i].client) {
      assert Cached(s.slots, s.sessions[i].client);
      if i != move.who {
        StillCached(s.slots, s'.slots, s.sessions[i].client);
      }
    }
  }

  /** `c` is stale, and if past the primary then before a call that is sure to be refused. */
  ghost predicate Shut(s: State, c: nat)
    requires Shaped(s) && c < |s.sessions|
  {
    Stale(s, c) && (PastPrimary(s.sessions[c].client.op) ==> !CanWrite(s.slots, s.sessions[c].client))
  }

  lemma ShutOut(s: State, c: nat, fault: Fault)
    requires Shaped(s) && AllCached(s) && c < |s.sessions| && Shut(s, c) && Updates(s.sessions[c].client.op)
    ensures Next(s, Act(c, fault)).slots == s.slots
    ensures Next(s, Act(c, fault)).sessions[c].client.op.Resting?
  {
    if s.sessions[c].client.op.UpdatePrimary? {
      PrimaryRefused(s, c, fault);
    } else {
      assert Cached(s.slots, s.sessions[c].client);
    }
  }

  /** What is sure to be refused stays so while others move. */
  lemma StillBarred(slots: seq<Slot>, slots': seq<Slot>, c: Client)
    requires WellFormed(slots, c) && WellFormed(slots', c) && Cached(slots, c) && PastPrimary(c.op)
    requires forall j :: 0 <= j < |slots| ==> Later(slots[j], slots'[j])
    requires !CanWrite(slots, c)
    ensures !CanWrite(slots', c)
  {
    assert Later(slots[Target(c.op)], slots'[Target(c.op)]);
  }

  lemma ShutNext(s: State, c: nat, move: Move)
    requires Inv(s) && AllCached(s) && c < |s.sessions| && Shut(s, c) && !ReadsPrimary(s, c, move)
    ensures Shut(Next(s, move), c)
  {
    var (s', me) := (Next(s, move), s.sessions[c]);
    FencedNext(s, c, me, move);
    NextCached(s, move);
    if PastPrimary(me.client.op) {
      if move.who != c {
        StillBarred(s.slots, s'.slots, me.client);
      } else if move.Act? {
        ShutOut(s, c, move.fault);
      }
    }
  }

  /** A reachable shape in which the candidate is shut out. */
  ghost predicate Sealed(s: State, c: nat) {
    Inv(s) && AllCached(s) && c < |s.sessions| && Shut(s, c)
  }

  lemma SealedNext(s: State, c: nat, move: Move)
    requires Sealed(s, c) && !ReadsPrimary(s, c, move)
    ensures Sealed(Next(s, move), c)
  {
    NextInv(s, move);
    NextCached(s, move);
    ShutNext(s, c, move);
  }

  lemma {:induction false} ShutRun(s: State, c: nat, moves: seq<Move>, k: nat)
    requires Sealed(s, c) && NeverReadsPrimary(s, c, moves) && k <= |moves|
    ensures Sealed(Run(s, moves[..k]), c)
    decreases k
  {
    if k > 0 {
      ShutRun(s, c, moves, k - 1);
      RunPrefix(s, moves, k - 1);
      SealedNext(Run(s, moves[..k - 1]), c, moves[k - 1]);
    }
  }

  lemma {:induction false} RunCached(s: State, moves: seq<Move>)
    requires Shaped(s) && AllCached(s)
    ensures AllCached(Run(s, moves))
    decreases |moves|
  {
    if moves != [] {
      NextCached(s, moves[0]);
      RunCached(Next(s, moves[0]), moves[1..]);
    }
  }

  lemma NeverWrites(s: State, c: nat)
    requires Inv(s) && AllCached(s) && c < |s.sessions| && Shut(s, c)
    ensures !MayWrite(s, c)
  {
    forall moves, fault | NeverReadsPrimary(s, c, moves) ensures !UpdateWrites(Run(s, moves), c, fault) {
      ShutRun(s, c, moves, |moves|);
      assert moves[..|moves|] == moves;
      if Updates(Run(s, moves).sessions[c].client.op) {
        ShutOut(Run(s, moves), c, fault);
      }
    }
  }

  /** Re-reading a secondary leaves an Update able to write it. */
  lemma RefreshedCanWrite(s: State, c: nat)
    requires Shaped(s) && c < |s.sessions| && s.sessions[c].client.op.RefreshAt?
    ensures var s' := Next(s, Act(c, Clean));
            !s'.sessions[c].client.op.RefreshAt? && CanWrite(s'.slots, s'.sessions[c].client)
  {
  }

  lemma WritesNow(s: State, c: nat)
    requires Shaped(s) && c < |s.sessions|
    requires CanWrite(s.slots, s.sessions[c].client) && !s.sessions[c].client.op.RefreshAt?
    ensures UpdateWrites(s, c, Clean)
  {
    var i := Target(s.sessions[c].client.op);
    assert Next(s, Act(c, Clean)).slots[i] != s.slots[i];
  }

  lemma Writes(s: State, c: nat)
    requires Shaped(s) && c < |s.sessions| && CanWrite(s.slots, s.sessions[c].client)
    ensures MayWrite(s, c)
  {
    var moves := [];
    if s.sessions[c].client.op.RefreshAt? {
      moves := [Act(c, Clean)];
      RefreshedCanWrite(s, c);
      assert moves[..0] == [] && Run(s, moves) == Next(s, moves[0]);
    }
    WritesNow(Run(s, moves), c);
    assert NeverReadsPrimary(s, c, moves);
  }

  lemma Reached(slots: seq<Slot>, ids: seq<string>, moves: seq<Move>)
    requires slots != []
    ensures Inv(Run(Start(slots, ids), moves)) && AllCached(Run(Start(slots, ids), moves))
  {
    StartInv(slots, ids);
    RunInv(Start(slots, ids), moves);
    RunCached(Start(slots, ids), moves);
  }

  /** In every run, after another candidate's primary write: some way of going on, before `c` next
      reads the primary, lets an Update of `c` change a lease if and only if `c` was then past the
      primary and not before a call that is sure to be refused. */
  lemma FencingIsExact(slots: seq<Slot>, ids: seq<string>, before: seq<Move>, write: Move, c: nat)
    requires slots != [] && c < |ids| && Deposes(Run(Start(slots, ids), before), write, c)
    ensures var s := Next(Run(Start(slots, ids), before), write);
            MayWrite(s, c) <==> CanWrite(s.slots, s.sessions[c].client)
  {
    var s0 := Run(Start(slots, ids), before);
    Reached(slots, ids, before);
    NextInv(s0, write);
    NextCached(s0, write);
    WriteDeposes(s0, write, c);
    var s := Next(s0, write);
    if CanWrite(s.slots, s.sessions[c].client) {
      Writes(s, c);
    } else {
      NeverWrites(s, c);
    }
  }

  // ----- an Update overwriting what the new holder wrote

  /** Session `who` is now the client `c`, and nothing else but the leases has changed. */
  ghost predicate OnlyMoved(s: State, s': State, who: nat, slots: seq<Slot>, c: Client)
    requires who < |s.sessions|
  {
    && s'.slots == slots
    && |s'.sessions| == |s.sessions| && s'.sessions[who].client == c
    && forall i :: 0 <= i < |s.sessions| && i != who ==> s'.sessions[i] == s.sessions[i]
  }

  lemma ActsAlone(s: State, who: nat, slots: seq<Slot>, c: Client)
    requires Shaped(s) && who < |s.sessions| && Busy(s, who)
    requires Step(s.slots, s.sessions[who].client, Clean) == (slots, c)
    ensures OnlyMoved(s, Next(s, Act(who, Clean)), who, slots, c)
  {
  }

  /** A candidate that finishes its call while the others stand still. */
  lemma {:induction false} Alone(s: State, who: nat) returns (moves: seq<Move>)
    requires Shaped(s) && who < |s.sessions|
    ensures var (slots, c) := Finish(s.slots, s.sessions[who].client, NoFaults);
            OnlyMoved(s, Run(s, moves), who, slots, c)
    decreases Remaining(|s.slots|, s.sessions[who].client.op)
  {
    moves := [];
    if Busy(s, who) {
      var c := s.sessions[who].client;
      var (slots', c') := Step(s.slots, c, Clean);
      FinishStep(s.slots, c, NoFaults, slots', c');
      ActsAlone(s, who, slots', c');
      var rest := Alone(Next(s, Act(who, Clean)), who);
      moves := [Act(who, Clean)] + rest;
      assert moves[1..] == rest;
    }
  }

  /** A candidate at rest that makes one call. */
  lemma CallAlone(s: State, who: nat, request: Request) returns (moves: seq<Move>)
    requires Shaped(s) && who < |s.sessions| && !Busy(s, who)
    ensures var (slots, c) := Finish(s.slots, s.sessions[who].client.(op := Opening(request)), NoFaults);
            OnlyMoved(s, Run(s, moves), who, slots, c)
  {
    var rest := Alone(Next(s, Begin(who, request)), who);
    moves := [Begin(who, request)] + rest;
    assert moves[1..] == rest;
  }

  /** Reading the secondaries leaves the cached version of the primary alone. */
  lemma {:induction false} GetKeepsPrimary(slots: seq<Slot>, c: Client)
    requires WellFormed(slots, c) && (c.op.GetSecondary? || c.op.Resting?)
    ensures var (slots', c') := Finish(slots, c, NoFaults); slots' == slots && c'.cache[0] == c.cache[0]
    decreases Remaining(|slots|, c.op)
  {
    if c.op.GetSecondary? {
      var (slots', c') := Step(slots, c, Clean);
      StepFrame(slots, c, Clean, 0);
      FinishStep(slots, c, NoFaults, slots', c');
      GetKeepsPrimary(slots', c');
    }
  }

  /** A Get, however it ends, leaves its caller with the current version of an existing primary. */
  lemma GetRefreshes(slots: seq<Slot>, c: Client)
    requires WellFormed(slots, c) && c.op == GetPrimary && slots[0].Present?
    ensures var (slots', c') := Finish(slots, c, NoFaults); slots' == slots && c'.cache[0] == Some(slots[0].version)
  {
    var (slots', c') := Step(slots, c, Clean);
    FinishStep(slots, c, NoFaults, slots', c');
    GetKeepsPrimary(slots', c');
  }

  ghost predicate Filled(slots: seq<Slot>) { forall i :: 0 <= i < |slots| ==> slots[i].Present? }

  /** A candidate at rest takes or renews the lock undisturbed: a Get, then an Update. */
  lemma TakesOver(s: State, who: nat, rec: Record) returns (moves: seq<Move>)
    requires Shaped(s) && who < |s.sessions| && !Busy(s, who) && Filled(s.slots)
    ensures var s' := Run(s, moves);
            && OnlyMoved(s, s', who, s'.slots, s'.sessions[who].client)
            && s'.sessions[who].client.op == Resting(Done)
            && AllHold(s'.slots, rec) && s'.slots[0].version == s.slots[0].version + 1
  {
    GetRefreshes(s.slots, s.sessions[who].client.(op := GetPrimary));
    var gets := CallAlone(s, who, AskGet);
    var mid := Run(s, gets);
    assert |Prefix(mid.slots)| == |mid.slots|;
    UpdateOverwrites(mid.slots, mid.sessions[who].client.(op := UpdatePrimary(rec)), rec);
    var updates := CallAlone(mid, who, AskUpdate(rec));
    moves := gets + updates;
    RunConcat(s, gets, updates);
  }

  /** An Update with a current view of the primary begins, writes the primary, and stops there. */
  lemma WritesPrimary(s: State, who: nat, rec: Record) returns (moves: seq<Move>)
    requires Shaped(s) && who < |s.sessions| && !Busy(s, who) && 2 <= |s.slots|
    requires s.slots[0].Present? && s.sessions[who].client.cache[0] == Some(s.slots[0].version)
    ensures var (s', c) := (Run(s, moves), s.sessions[who].client);
            OnlyMoved(s, s', who, s.slots[0 := Present(s.slots[0].version + 1, rec)],
                      Client(c.id, c.cache[0 := Some(s.slots[0].version + 1)], RefreshAt(1, rec)))
  {
    moves := [Begin(who, AskUpdate(rec)), Act(who, Clean)];
    var s1 := Next(s, moves[0]);
    var s2 := Next(s1, moves[1]);
    assert moves[1..] == [moves[1]] && [moves[1]][1..] == [];
    assert Run(s, moves) == Run(s1, [moves[1]]) == Run(s2, []) == s2;
  }

  /** A candidate begins to take or renew the lock and stops right after its write to the primary. */
  lemma StartsUpdate(s: State, who: nat, rec: Record) returns (moves: seq<Move>)
    requires Shaped(s) && who < |s.sessions| && !Busy(s, who) && Filled(s.slots) && 2 <= |s.slots|
    ensures var s' := Run(s, moves);
            && OnlyMoved(s, s', who, s.slots[0 := Present(s.slots[0].version + 1, rec)], s'.sessions[who].client)
            && s'.sessions[who].client.op == RefreshAt(1, rec)
            && s'.sessions[who].client.cache[0] == Some(s.slots[0].version + 1)
  {
    GetRefreshes(s.slots, s.sessions[who].client.(op := GetPrimary));
    var gets := CallAlone(s, who, AskGet);
    var writes := WritesPrimary(Run(s, gets), who, rec);
    moves := gets + writes;
    RunConcat(s, gets, writes);
  }

  /** The two lease calls with which an Update overwrites an existing secondary. */
  lemma OverwritesSecondary(s: State, who: nat)
    requires Shaped(s) && who < |s.sessions| && s.sessions[who].client.op.RefreshAt?
    requires s.slots[s.sessions[who].client.op.i].Present?
    ensures var op := s.sessions[who].client.op;
            Next(Next(s, Act(who, Clean)), Act(who, Clean)).slots
              == s.slots[op.i := Present(s.slots[op.i].version + 1, op.rec)]
  {
  }

  /** A candidate just past the primary is overtaken by another one, which then holds every lease. */
  lemma Overtaken(s: State, mine: Record, theirs: Record) returns (moves: seq<Move>)
    requires Shaped(s) && 2 <= |s.slots| && Filled(s.slots) && 2 <= |s.sessions| && !Busy(s, 1)
    requires s.sessions[0].client.op == RefreshAt(1, mine)
    requires s.sessions[0].client.cache[0] == Some(s.slots[0].version)
    ensures var s' := Run(s, moves);
            && s'.sessions[1].client.op == Resting(Done) && AllHold(s'.slots, theirs) && Stale(s', 0)
            && s'.sessions[0] == s.sessions[0]
  {
    moves := TakesOver(s, 1, theirs);
    assert Run(s, moves).sessions[0] == s.sessions[0];
  }

  /** The fence stops at the primary.  Over any existing leases there is a run in which candidate 0
      stops past the primary, candidate 1 reads and updates every lease, so that all of them hold its
      record and candidate 0 is deposed, and candidate 0 then overwrites the first secondary. */
  lemma StragglerOverwrites(slots: seq<Slot>, ids: seq<string>, mine: Record, theirs: Record)
    returns (before: seq<Move>)
    requires 2 <= |slots| && Filled(slots) && 2 <= |ids|
    ensures var s := Run(Start(slots, ids), before);
            var s' := Next(Next(s, Act(0, Clean)), Act(0, Clean));
            && s.sessions[1].client.op == Resting(Done) && AllHold(s.slots, theirs) && Stale(s, 0)
            && s'.slots == s.slots[1 := Present(s.slots[1].version + 1, mine)]
  {
    var s0 := Start(slots, ids);
    var first := StartsUpdate(s0, 0, mine);
    var s1 := Run(s0, first);
    var second := Overtaken(s1, mine, theirs);
    before := first + second;
    RunConcat(s0, first, second);
    OverwritesSecondary(Run(s1, second), 0);
  }
}
