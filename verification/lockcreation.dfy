/** Candidates racing to create the lock: Create and Get calls, under any faults, before anyone
    updates. */
module LockCreation {
  import opened Wrappers
  import opened Leases
  import opened MultiLock
  import opened LockProtocol
  import opened MultiLockLaws

  /** The move makes a lease call, begins a Get, or begins a Create naming its caller. */
  ghost predicate CreatesOnly(s: State, move: Move) {
    match move
    case Begin(_, AskGet) => true
    case Begin(who, AskCreate(rec)) => who < |s.sessions| ==> rec.holder == s.sessions[who].client.id
    case Begin(_, AskUpdate(_)) => false
    case Act(_, _) => true
  }

  ghost predicate CreationRun(s: State, moves: seq<Move>)
    requires Shaped(s)
    decreases |moves|
  {
    moves == [] || (CreatesOnly(s, moves[0]) && CreationRun(Next(s, moves[0]), moves[1..]))
  }

  /** The candidates whose moves changed lease `i`, in order. */
  ghost function Writers(s: State, moves: seq<Move>, i: nat): seq<nat>
    requires Shaped(s) && i < |s.slots|
    decreases |moves|
  {
    if moves == [] then []
    else
      var s' := Next(s, moves[0]);
      (if s'.slots[i] != s.slots[i] then [moves[0].who] else []) + Writers(s', moves[1..], i)
  }

  ghost predicate Quiet(s: State) {
    forall i :: 0 <= i < |s.sessions| ==>
      var c := s.sessions[i].client;
      c.op.Resting? || c.op.GetPrimary? || c.op.GetSecondary? || (c.op.CreateAt? && c.op.rec.holder == c.id)
  }

  ghost predicate SameIds(s: State, s': State) {
    && |s.sessions| == |s'.sessions|
    && forall i :: 0 <= i < |s.sessions| ==> s'.sessions[i].client.id == s.sessions[i].client.id
  }

  lemma QuietNext(s: State, move: Move, i: nat)
    requires Shaped(s) && Quiet(s) && CreatesOnly(s, move) && i < |s.slots|
    ensures var s' := Next(s, move);
            && Quiet(s') && SameIds(s, s')
            && (s'.slots[i] == s.slots[i]
                || (move.who < |s.sessions| && s.slots[i].Absent? && s'.slots[i].Present?
                    && s'.slots[i].record.holder == s.sessions[move.who].client.id))
  {
  }

  /** A present lease is never overwritten; a missing one is created at most once, and names
      the candidate that created it. */
  lemma {:induction false} CreatedOnce(s: State, moves: seq<Move>, i: nat)
    requires Shaped(s) && Quiet(s) && CreationRun(s, moves) && i < |s.slots|
    ensures var (s', writers) := (Run(s, moves), Writers(s, moves, i));
            && Quiet(s') && SameIds(s, s')
            && ((s'.slots[i] == s.slots[i] && writers == [])
                || (s.slots[i].Absent? && s'.slots[i].Present? && |writers| == 1 && writers[0] < |s.sessions|
                    && s'.slots[i].record.holder == s.sessions[writers[0]].client.id))
    decreases |moves|
  {
    if moves != [] {
      QuietNext(s, moves[0], i);
      CreatedOnce(Next(s, moves[0]), moves[1..], i);
    }
  }

  // ----- what Get says afterwards

  ghost predicate Holds(slots: seq<Slot>, rs: seq<Record>) {
    |slots| == |rs| && forall i :: 0 <= i < |rs| ==> slots[i].Present? && slots[i].record == rs[i]
  }

  /** A Get standing here has observed leases holding `rs`. */
  ghost predicate Observes(rs: seq<Record>, op: Op)
    requires rs != []
  {
    match op
    case GetSecondary(i, primary, raw) => 1 <= i < |rs| && (primary, raw) == Observation(rs[..i])
    case Resting(Got(record, raw)) => (record, raw) == Observation(rs)
    case _ => true
  }

  lemma ObservesStep(slots: seq<Slot>, c: Client, fault: Fault, rs: seq<Record>)
    requires WellFormed(slots, c) && !c.op.Resting? && (c.op.GetPrimary? || c.op.GetSecondary? || c.op.CreateAt?)
    requires rs != [] && Holds(slots, rs) && NoMarker(rs) && Observes(rs, c.op)
    ensures Observes(rs, Step(slots, c, fault).1.op)
  {
    assert rs[..|rs|] == rs;
    if c.op.GetPrimary? {
      assert rs[..1] == [rs[0]];
    } else if c.op.GetSecondary? {
      ObservationNext(rs, c.op.i);
    }
  }

  /** What a Get numbered `mark` or later has observed are leases holding `rs`. */
  ghost predicate Watches(rs: seq<Record>, me: Session, mark: nat)
    requires rs != []
  {
    mark <= me.call ==> Observes(rs, me.client.op)
  }

  lemma WatchesNext(s: State, move: Move, rs: seq<Record>, c: nat, mark: nat)
    requires Shaped(s) && Quiet(s) && CreatesOnly(s, move) && c < |s.sessions|
    requires rs != [] && Holds(s.slots, rs) && NoMarker(rs) && Watches(rs, s.sessions[c], mark)
    ensures Holds(Next(s, move).slots, rs) && Watches(rs, Next(s, move).sessions[c], mark)
  {
    forall i | 0 <= i < |rs| ensures Next(s, move).slots[i] == s.slots[i] { QuietNext(s, move, i); }
    if move.who == c && move.Act? && Busy(s, c) && mark <= s.sessions[c].call {
      ObservesStep(s.slots, s.sessions[c].client, move.fault, rs);
    }
  }

  lemma {:induction false} WatchesRun(s: State, moves: seq<Move>, rs: seq<Record>, c: nat, mark: nat)
    requires Shaped(s) && Quiet(s) && CreationRun(s, moves) && c < |s.sessions|
    requires rs != [] && Holds(s.slots, rs) && NoMarker(rs) && Watches(rs, s.sessions[c], mark)
    ensures Watches(rs, Run(s, moves).sessions[c], mark)
    decreases |moves|
  {
    if moves != [] {
      QuietNext(s, moves[0], 0);
      WatchesNext(s, moves[0], rs, c, mark);
      WatchesRun(Next(s, moves[0]), moves[1..], rs, c, mark);
    }
  }

  /** Calls that have answered carry a number already given out. */
  ghost predicate Numbered(s: State) {
    forall i :: 0 <= i < |s.sessions| ==>
      s.sessions[i].call < s.nextCall || s.sessions[i].client.op == Resting(Failed(NotInitialized))
  }

  lemma {:induction false} NumberedRun(s: State, moves: seq<Move>)
    requires Shaped(s) && Numbered(s)
    ensures Numbered(Run(s, moves))
    decreases |moves|
  {
    if moves != [] {
      NumberedRun(Next(s, moves[0]), moves[1..]);
    }
  }

  function Empty(n: nat): seq<Slot> { seq(n, _ => Absent) }

  /** A Get begun once every lease exists answers their observation. */
  lemma LaterGetObserves(s: State, later: seq<Move>, c: nat) returns (rs: seq<Record>)
    requires Shaped(s) && Quiet(s) && Numbered(s) && CreationRun(s, later) && c < |s.sessions|
    requires forall i :: 0 <= i < |s.slots| ==> s.slots[i].Present? && s.slots[i].record.holder != UNKNOWN_LEADER
    requires var me := Run(s, later).sessions[c];
             s.nextCall <= me.call && me.client.op.Resting? && me.client.op.answer.Got?
    ensures Holds(s.slots, rs) && rs != []
    ensures Run(s, later).sessions[c].client.op.answer.record == Observation(rs).0
  {
    rs := seq(|s.slots|, i requires 0 <= i < |s.slots| => s.slots[i].record);
    WatchesRun(s, later, rs, c, s.nextCall);
  }

  /** One candidate's move, and no other, changed lease `i`, and that candidate is `id`. */
  ghost predicate CreatedBy(s: State, moves: seq<Move>, i: nat, id: string)
    requires Shaped(s) && i < |s.slots|
  {
    var writers := Writers(s, moves, i);
    |writers| == 1 && writers[0] < |s.sessions| && s.sessions[writers[0]].client.id == id
  }

  /** After a creation run from empty clusters every existing lease has one creator, which it names. */
  lemma HaveCreators(s: State, creating: seq<Move>)
    requires Shaped(s) && Quiet(s) && CreationRun(s, creating)
    requires forall i :: 0 <= i < |s.slots| ==> s.slots[i].Absent? && Run(s, creating).slots[i].Present?
    ensures Quiet(Run(s, creating)) && SameIds(s, Run(s, creating))
    ensures forall i :: 0 <= i < |s.slots| ==> CreatedBy(s, creating, i, Run(s, creating).slots[i].record.holder)
  {
    CreatedOnce(s, creating, 0);
    forall i | 0 <= i < |s.slots| ensures CreatedBy(s, creating, i, Run(s, creating).slots[i].record.holder) {
      CreatedOnce(s, creating, i);
    }
  }

  lemma HolderOf(rs: seq<Record>, id: string)
    requires rs != [] && id != UNKNOWN_LEADER
    ensures Observation(rs).0.holder == id <==> forall i :: 0 <= i < |rs| ==> rs[i].holder == id
  {
  }

  ghost predicate CreatedAll(s: State, moves: seq<Move>, id: string)
    requires Shaped(s)
  {
    forall i :: 0 <= i < |s.slots| ==> CreatedBy(s, moves, i, id)
  }

  lemma NamesCreator(s0: State, creating: seq<Move>, rs: seq<Record>, holder: string)
    requires Shaped(s0) && |rs| == |s0.slots| && NoMarker(rs) && holder == Observation(rs).0.holder
    requires forall i :: 0 <= i < |rs| ==> CreatedBy(s0, creating, i, rs[i].holder)
    ensures forall id :: id != UNKNOWN_LEADER ==> (holder == id <==> CreatedAll(s0, creating, id))
    ensures holder == UNKNOWN_LEADER || CreatedBy(s0, creating, 0, holder)
  {
    forall id | id != UNKNOWN_LEADER ensures holder == id <==> CreatedAll(s0, creating, id) {
      HolderOf(rs, id);
      if holder == id {
        forall i | 0 <= i < |rs| ensures CreatedBy(s0, creating, i, id) {
          assert CreatedBy(s0, creating, i, rs[i].holder);
        }
      } else if CreatedAll(s0, creating, id) {
        forall i | 0 <= i < |rs| ensures rs[i].holder == id {
          assert CreatedBy(s0, creating, i, id) && CreatedBy(s0, creating, i, rs[i].holder);
        }
      }
    }
  }

  /** Once every lease exists, each was created by exactly one candidate, and a Get begun
      afterwards names a candidate exactly when that candidate created them all; it names nobody
      but a candidate or the unknown marker.  A split creation is nobody's lock. */
  lemma SplitCreationIsNobodys(s0: State, creating: seq<Move>, s: State, later: seq<Move>, c: nat, record: Record)
    requires Shaped(s0) && Quiet(s0) && Numbered(s0) && CreationRun(s0, creating) && s == Run(s0, creating)
    requires forall i :: 0 <= i < |s0.slots| ==> s0.slots[i].Absent? && s.slots[i].Present?
    requires CreationRun(s, later)
    requires c < |s0.sessions| && forall i :: 0 <= i < |s0.sessions| ==> s0.sessions[i].client.id != UNKNOWN_LEADER
    requires var me := Run(s, later).sessions[c];
             && s.nextCall <= me.call && me.client.op.Resting?
             && me.client.op.answer.Got? && me.client.op.answer.record == record
    ensures forall id :: id != UNKNOWN_LEADER ==> (record.holder == id <==> CreatedAll(s0, creating, id))
    ensures record.holder == UNKNOWN_LEADER || CreatedBy(s0, creating, 0, record.holder)
  {
    HaveCreators(s0, creating);
    NumberedRun(s0, creating);
    forall i | 0 <= i < |s.slots| ensures s.slots[i].record.holder != UNKNOWN_LEADER {
      assert CreatedBy(s0, creating, i, s.slots[i].record.holder);
    }
    var rs := LaterGetObserves(s, later, c);
    NamesCreator(s0, creating, rs, record.holder);
  }

  /** Every start from empty clusters meets the assumptions made of `s0` above. */
  lemma EmptyStart(n: nat, ids: seq<string>)
    requires 1 <= n
    ensures var s0 := Start(Empty(n), ids);
            Shaped(s0) && Quiet(s0) && Numbered(s0) && |s0.sessions| == |ids| &&
            (forall i :: 0 <= i < n ==> s0.slots[i].Absent?) &&
            (forall i :: 0 <= i < |ids| ==> s0.sessions[i].client.id == ids[i])
  {
  }

  /** Two candidates whose Creates interleave. */
  function Race(a: string, b: string): seq<Move> {
    [Begin(0, AskCreate(Record(a, 0))), Begin(1, AskCreate(Record(b, 0))), Act(0, Clean)]
    + [Act(1, Clean), Act(1, Clean), Act(0, Clean)]
  }

  lemma CreatesNext(s: State, who: nat)
    requires Shaped(s) && who < |s.sessions| && s.sessions[who].client.op.CreateAt?
    ensures var (s', c) := (Next(s, Act(who, Clean)), s.sessions[who].client);
            var i := c.op.i;
            && s'.slots == (if s.slots[i].Absent? then s.slots[i := Present(0, c.op.rec)] else s.slots)
            && s'.sessions[who].client.op == CreatingFrom(|s.slots|, i + 1, c.op.rec)
            && forall j :: 0 <= j < |s.sessions| && j != who ==> s'.sessions[j] == s.sessions[j]
  {
  }

  lemma RaceBegins(s: State, a: string, b: string)
    requires s == Start(Empty(2), [a, b])
    ensures var s' := Run(s, [Begin(0, AskCreate(Record(a, 0))), Begin(1, AskCreate(Record(b, 0))), Act(0, Clean)]);
            && s'.slots == [Present(0, Record(a, 0)), Absent] && |s'.sessions| == 2
            && s'.sessions[0].client.op == CreateAt(1, Record(a, 0))
            && s'.sessions[1].client.op == CreateAt(0, Record(b, 0))
  {
    var moves := [Begin(0, AskCreate(Record(a, 0))), Begin(1, AskCreate(Record(b, 0))), Act(0, Clean)];
    var s1 := Next(s, moves[0]);
    var s2 := Next(s1, moves[1]);
    CreatesNext(s2, 0);
    assert moves[1..] == [moves[1], moves[2]] && moves[1..][1..] == [moves[2]];
    assert Run(s, moves) == Run(s1, moves[1..]) == Run(s2, [moves[2]]);
    assert Run(s2, [moves[2]]) == Next(s2, moves[2]);
  }

  lemma RaceEnds(s: State, a: string, b: string)
    requires Shaped(s) && s.slots == [Present(0, Record(a, 0)), Absent] && |s.sessions| == 2
    requires s.sessions[0].client.op == CreateAt(1, Record(a, 0))
    requires s.sessions[1].client.op == CreateAt(0, Record(b, 0))
    ensures var s' := Run(s, [Act(1, Clean), Act(1, Clean), Act(0, Clean)]);
            && s'.slots == [Present(0, Record(a, 0)), Present(0, Record(b, 0))] && |s'.sessions| == 2
            && s'.sessions[0].client.op == Resting(Done) && s'.sessions[1].client.op == Resting(Done)
  {
    CreatesNext(s, 1);
    var s1 := Next(s, Act(1, Clean));
    CreatesNext(s1, 1);
    var s2 := Next(s1, Act(1, Clean));
    CreatesNext(s2, 0);
    assert Run(s, [Act(1, Clean), Act(1, Clean), Act(0, Clean)]) == Next(s2, Act(0, Clean));
  }

  /** A Create without error is not ownership: both race to success and neither holds both leases. */
  lemma CreateIsNotOwnership(a: string, b: string)
    requires a != b
    ensures var s := Run(Start(Empty(2), [a, b]), Race(a, b));
            && s.sessions[0].client.op == Resting(Done) && s.sessions[1].client.op == Resting(Done)
            && s.slots == [Present(0, Record(a, 0)), Present(0, Record(b, 0))]
  {
    var s0 := Start(Empty(2), [a, b]);
    var first := [Begin(0, AskCreate(Record(a, 0))), Begin(1, AskCreate(Record(b, 0))), Act(0, Clean)];
    RunConcat(s0, first, [Act(1, Clean), Act(1, Clean), Act(0, Clean)]);
    RaceBegins(s0, a, b);
    RaceEnds(Run(s0, first), a, b);
  }

  // ----- when a Create is ownership

  /** The records a Create has met account for every lease up to position `i` that does not name it. */
  ghost predicate Accounts(slots: seq<Slot>, i: nat, id: string, met: seq<Record>)
    requires i <= |slots|
  {
    && (forall j :: 0 <= j < i ==> slots[j].Present?)
    && (Names(slots, i, id) <==> AllName(met, id))
  }

  ghost predicate Creates(slots: seq<Slot>, me: Session)
    requires WellFormed(slots, me.client)
  {
    match me.client.op
    case CreateAt(i, _) => Accounts(slots, i, me.client.id, me.met)
    case Resting(Done) => Accounts(slots, |slots|, me.client.id, me.met)
    case _ => true
  }

  /** What creation does to the leases keeps every account. */
  lemma AccountsKept(slots: seq<Slot>, slots': seq<Slot>, i: nat, id: string, met: seq<Record>)
    requires i <= |slots| == |slots'| && Accounts(slots, i, id, met)
    requires forall j :: 0 <= j < |slots| && slots[j].Present? ==> slots'[j] == slots[j]
    ensures Accounts(slots', i, id, met)
  {
  }

  lemma AccountsNext(slots: seq<Slot>, slots': seq<Slot>, i: nat, id: string, met: seq<Record>, more: seq<Record>)
    requires i < |slots| == |slots'| && Accounts(slots, i, id, met) && slots'[i].Present?
    requires forall j :: 0 <= j < |slots| && slots[j].Present? ==> slots'[j] == slots[j]
    requires (more == [] && slots'[i].record.holder == id) || more == [slots'[i].record]
    ensures Accounts(slots', i + 1, id, met + more)
  {
    AccountsKept(slots, slots', i, id, met);
    if more != [] {
      var all := met + more;
      assert all[|met|] == slots'[i].record && forall j :: 0 <= j < |met| ==> all[j] == met[j];
    } else {
      assert met + more == met;
    }
  }

  /** One lease call of a Create. */
  lemma CreatesStep(slots: seq<Slot>, c: Client, fault: Fault)
    requires WellFormed(slots, c) && c.op.CreateAt? && c.op.rec.holder == c.id
    ensures var ((slots', c'), i, more) := (Step(slots, c, fault), c.op.i, MetBy(slots, c, fault));
            && (forall j :: 0 <= j < |slots| && slots[j].Present? ==> slots'[j] == slots[j])
            && ((c'.op.Resting? && c'.op.answer.Failed?)
                || (c'.op == CreatingFrom(|slots|, i + 1, c.op.rec) && slots'[i].Present?
                    && ((more == [] && slots'[i].record.holder == c.id) || more == [slots'[i].record])))
  {
  }

  lemma ActedCreates(s: State, who: nat, fault: Fault)
    requires Shaped(s) && Quiet(s) && who < |s.sessions| && Busy(s, who) && Creates(s.slots, s.sessions[who])
    ensures Creates(Acted(s, who, fault).slots, Acted(s, who, fault).sessions[who])
  {
    var me := s.sessions[who];
    var c := me.client;
    if c.op.CreateAt? {
      CreatesStep(s.slots, c, fault);
      var (slots', c') := Step(s.slots, c, fault);
      if c'.op == CreatingFrom(|s.slots|, c.op.i + 1, c.op.rec) {
        AccountsNext(s.slots, slots', c.op.i, c.id, me.met, MetBy(s.slots, c, fault));
      }
    }
  }

  lemma CreatesKept(s: State, move: Move, c: nat)
    requires Shaped(s) && Quiet(s) && CreatesOnly(s, move) && c < |s.sessions| && Creates(s.slots, s.sessions[c])
    ensures Creates(Next(s, move).slots, Next(s, move).sessions[c])
  {
    var (s', me) := (Next(s, move), s.sessions[c]);
    forall j | 0 <= j < |s.slots| && s.slots[j].Present? ensures s'.slots[j] == s.slots[j] {
      QuietNext(s, move, j);
    }
    if move.who != c {
      match me.client.op {
        case CreateAt(i, _) => AccountsKept(s.slots, s'.slots, i, me.client.id, me.met);
        case Resting(Done) => AccountsKept(s.slots, s'.slots, |s.slots|, me.client.id, me.met);
        case _ =>
      }
    } else if move.Act? && Busy(s, c) {
      ActedCreates(s, c, move.fault);
    }
  }

  lemma {:induction false} CreatesRun(s: State, moves: seq<Move>, c: nat)
    requires Shaped(s) && Quiet(s) && CreationRun(s, moves) && c < |s.sessions| && Creates(s.slots, s.sessions[c])
    ensures Creates(Run(s, moves).slots, Run(s, moves).sessions[c])
    ensures Run(s, moves).sessions[c].client.id == s.sessions[c].client.id
    decreases |moves|
  {
    if moves != [] {
      QuietNext(s, moves[0], 0);
      CreatesKept(s, moves[0], c);
      CreatesRun(Next(s, moves[0]), moves[1..], c);
    }
  }

  /** In every creation run, over leases existing or not, interleaved and under any faults: a Create
      that returned without error leaves its caller holding every lease if and only if each lease it
      found already existing named the caller. */
  lemma CreateIsOwnershipIff(slots: seq<Slot>, ids: seq<string>, moves: seq<Move>, c: nat)
    requires slots != [] && c < |ids| && CreationRun(Start(slots, ids), moves)
    requires Run(Start(slots, ids), moves).sessions[c].client.op == Resting(Done)
    ensures var s := Run(Start(slots, ids), moves);
            Names(s.slots, |s.slots|, ids[c]) <==> AllName(s.sessions[c].met, ids[c])
  {
    CreatesRun(Start(slots, ids), moves, c);
  }
}
