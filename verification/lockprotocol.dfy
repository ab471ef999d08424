/** Any number of candidates using composite locks over the same leases, interleaved one lease
    call at a time, under network faults.

    A run is any sequence of moves; a move that is not enabled changes nothing, so every theorem
    about `Run` holds for every schedule. */
module LockProtocol {
  import opened Wrappers
  import opened Leases
  import opened MultiLock

  datatype Request = AskGet | AskCreate(rec: Record) | AskUpdate(rec: Record)

  /** A resting candidate begins a call, or a busy one makes its next lease call. */
  datatype Move = Begin(who: nat, request: Request) | Act(who: nat, fault: Fault)

  /** A candidate with what the theorems talk about: the number of its current call, the primary its
      last successful primary call saw, the records its current Get has read, those its current
      Create has met, and, for an Update past the primary, the primary it replaced and the one it
      based that on. */
  datatype Session = Session(client: Client, call: nat, seen: Slot, found: seq<Record>, met: seq<Record>,
                             replaced: Slot, basis: Slot)

  /** An Update that returned without error. */
  datatype Win = Win(call: nat, replaced: Slot, basis: Slot)

  /** `swaps` maps each replaced primary version to the call whose write replaced it. */
  datatype State = State(slots: seq<Slot>, sessions: seq<Session>, nextCall: nat, swaps: map<nat, nat>,
                         wins: seq<Win>)

  /** A new composite lock over `n` leases, not yet used. */
  function Fresh(n: nat, id: string): Session {
    Session(Client(id, seq(n, _ => None), Resting(Failed(NotInitialized))), 0, Absent, [], [], Absent, Absent)
  }

  function Start(slots: seq<Slot>, ids: seq<string>): State {
    State(slots, seq(|ids|, i requires 0 <= i < |ids| => Fresh(|slots|, ids[i])), 0, map[], [])
  }

  function Opening(request: Request): Op {
    match request
    case AskGet => GetPrimary
    case AskCreate(rec) => CreateAt(0, rec)
    case AskUpdate(rec) => UpdatePrimary(rec)
  }

  predicate PastPrimary(op: Op) { op.RefreshAt? || op.CreateMissing? || op.UpdateAt? }

  predicate Updates(op: Op) { op.UpdatePrimary? || PastPrimary(op) }

  /** The next lease call of `c` is on the primary and succeeds. */
  predicate SeesPrimary(primary: Slot, c: Client, fault: Fault)
    requires 1 <= |c.cache|
  {
    match c.op
    case GetPrimary => ReadSlot(primary, c.cache[0], fault).1.Found?
    case CreateAt(i, rec) => i == 0 && CreateSlot(primary, rec, fault).error.None?
    case UpdatePrimary(rec) => UpdateSlot(primary, c.cache[0], rec, fault).error.None?
    case _ => false
  }

  /** The record the next lease call of `c` returns to a Get, if any. */
  function ReadBy(slots: seq<Slot>, c: Client, fault: Fault): seq<Record>
    requires WellFormed(slots, c)
  {
    if (c.op.GetPrimary? || c.op.GetSecondary?) && fault.Clean? && slots[Target(c.op)].Present?
    then [slots[Target(c.op)].record] else []
  }

  /** The record the next lease call of `c` meets where a Create wanted to put its own, if any. */
  function MetBy(slots: seq<Slot>, c: Client, fault: Fault): seq<Record>
    requires WellFormed(slots, c)
  {
    if c.op.CreateAt? && fault.Clean? && slots[c.op.i].Present? then [slots[c.op.i].record] else []
  }

  function Acted(s: State, who: nat, fault: Fault): State
    requires who < |s.sessions| && WellFormed(s.slots, s.sessions[who].client)
    requires !s.sessions[who].client.op.Resting?
  {
    var me := s.sessions[who];
    var c := me.client;
    var (slots, c') := Step(s.slots, c, fault);
    var swapped := c.op.UpdatePrimary? && slots[0] != s.slots[0];
    var me' := Session(c', me.call,
                       if SeesPrimary(s.slots[0], c, fault) then slots[0] else me.seen,
                       me.found + ReadBy(s.slots, c, fault),
                       me.met + MetBy(s.slots, c, fault),
                       if swapped then s.slots[0] else me.replaced,
                       if swapped then me.seen else me.basis);
    State(slots, s.sessions[who := me'], s.nextCall,
          if swapped && s.slots[0].Present? then s.swaps[s.slots[0].version := me.call] else s.swaps,
          if Updates(c.op) && c'.op == Resting(Done) then s.wins + [Win(me.call, me'.replaced, me'.basis)] else s.wins)
  }

  ghost predicate Shaped(s: State) {
    1 <= |s.slots| && forall i :: 0 <= i < |s.sessions| ==> WellFormed(s.slots, s.sessions[i].client)
  }

  function Next(s: State, move: Move): (s': State)
    requires Shaped(s)
    ensures Shaped(s') && |s'.slots| == |s.slots| && |s'.sessions| == |s.sessions| && s.nextCall <= s'.nextCall
  {
    if |s.sessions| <= move.who then s
    else
      var me := s.sessions[move.who];
      match move
      case Begin(who, request) =>
        if !me.client.op.Resting? then s
        else
          var me' := me.(client := me.client.(op := Opening(request)), call := s.nextCall, found := [], met := []);
          s.(sessions := s.sessions[who := me'], nextCall := s.nextCall + 1)
      case Act(who, fault) =>
        if me.client.op.Resting? then s else Acted(s, who, fault)
  }

  function Run(s: State, moves: seq<Move>): (s': State)
    requires Shaped(s)
    ensures Shaped(s') && |s'.slots| == |s.slots| && |s'.sessions| == |s.sessions| && s.nextCall <= s'.nextCall
    decreases |moves|
  {
    if moves == [] then s else Run(Next(s, moves[0]), moves[1..])
  }

  // ----- what every step keeps

  /** What a candidate remembers of the primary is never ahead of the primary. */
  ghost predicate Remembers(primary: Slot, me: Session)
    requires 1 <= |me.client.cache|
  {
    && (me.seen.Present? ==> primary.Present? && me.seen.version <= primary.version)
    && (me.seen.Present? && me.seen.version == primary.version ==> me.seen == primary)
    && (me.client.cache[0].Some? ==> me.seen.Present? && me.client.cache[0].value == me.seen.version)
  }

  ghost predicate Owns(s: State, call: nat, replaced: Slot, basis: Slot) {
    replaced.Present? && replaced == basis && replaced.version in s.swaps && s.swaps[replaced.version] == call
  }

  ghost predicate Busy(s: State, i: nat)
    requires i < |s.sessions|
  {
    !s.sessions[i].client.op.Resting?
  }

  /** Candidates remember the primary faithfully, and only superseded versions were swapped. */
  ghost predicate MemoryInv(s: State) {
    && Shaped(s)
    && (forall i :: 0 <= i < |s.sessions| ==> Remembers(s.slots[0], s.sessions[i]))
    && (forall v :: v in s.swaps ==> s.slots[0].Present? && v < s.slots[0].version)
  }

  /** No two unfinished or successful calls share a number. */
  ghost predicate CallsInv(s: State) {
    && (forall i :: 0 <= i < |s.sessions| && Busy(s, i) ==> s.sessions[i].call < s.nextCall)
    && (forall i, j :: 0 <= i < j < |s.sessions| && Busy(s, i) && Busy(s, j) ==>
          s.sessions[i].call != s.sessions[j].call)
    && (forall k :: 0 <= k < |s.wins| ==> s.wins[k].call < s.nextCall)
    && (forall k, l :: 0 <= k < l < |s.wins| ==> s.wins[k].call != s.wins[l].call)
    && (forall i, k :: 0 <= i < |s.sessions| && 0 <= k < |s.wins| && Busy(s, i) ==>
          s.sessions[i].call != s.wins[k].call)
  }

  /** Every Update past the primary owns the swap of the version it replaced. */
  ghost predicate SwapsInv(s: State) {
    && (forall i :: 0 <= i < |s.sessions| && PastPrimary(s.sessions[i].client.op) ==>
          Owns(s, s.sessions[i].call, s.sessions[i].replaced, s.sessions[i].basis))
    && (forall k :: 0 <= k < |s.wins| ==> Owns(s, s.wins[k].call, s.wins[k].replaced, s.wins[k].basis))
  }

  ghost predicate Inv(s: State) { MemoryInv(s) && CallsInv(s) && SwapsInv(s) }

  lemma StartInv(slots: seq<Slot>, ids: seq<string>)
    requires slots != []
    ensures Inv(Start(slots, ids))
  {
  }

  /** The primary changes only by its creation or by a swap against the caller's cached version. */
  lemma PrimaryChange(slots: seq<Slot>, c: Client, fault: Fault)
    requires WellFormed(slots, c) && !c.op.Resting?
    ensures var (slots', c') := Step(slots, c, fault);
            && (slots'[0] == slots[0]
                || (slots[0].Absent? && c.op.CreateAt? && slots'[0] == Present(0, c.op.rec))
                || (slots[0].Present? && c.op.UpdatePrimary? && c.cache[0] == Some(slots[0].version)
                    && slots'[0] == Present(slots[0].version + 1, c.op.rec)))
            && (SeesPrimary(slots[0], c, fault) ==> slots'[0].Present? && c'.cache[0] == Some(slots'[0].version))
            && (!SeesPrimary(slots[0], c, fault) ==> c'.cache[0] == c.cache[0] || c'.cache[0] == None)
            && (PastPrimary(c'.op) ==> PastPrimary(c.op) || (c.op.UpdatePrimary? && slots'[0] != slots[0]))
            && (c'.op == Resting(Done) && c.op.UpdatePrimary? ==> slots'[0] != slots[0])
  {
  }

  lemma ActedMemory(s: State, who: nat, fault: Fault)
    requires MemoryInv(s) && who < |s.sessions| && Busy(s, who)
    ensures MemoryInv(Acted(s, who, fault))
  {
    PrimaryChange(s.slots, s.sessions[who].client, fault);
    var s' := Acted(s, who, fault);
    forall i | 0 <= i < |s.sessions| ensures Remembers(s'.slots[0], s'.sessions[i]) {
      assert Remembers(s.slots[0], s.sessions[i]);
    }
  }

  lemma ActedCalls(s: State, who: nat, fault: Fault)
    requires Shaped(s) && CallsInv(s) && who < |s.sessions| && Busy(s, who)
    ensures CallsInv(Acted(s, who, fault))
  {
    var s' := Acted(s, who, fault);
    assert forall i :: 0 <= i < |s.sessions| ==>
             s'.sessions[i].call == s.sessions[i].call && (Busy(s', i) ==> Busy(s, i));
  }

  lemma ActedSwaps(s: State, who: nat, fault: Fault)
    requires MemoryInv(s) && SwapsInv(s) && who < |s.sessions| && Busy(s, who)
    ensures SwapsInv(Acted(s, who, fault))
  {
    PrimaryChange(s.slots, s.sessions[who].client, fault);
    var s' := Acted(s, who, fault);
    assert forall v :: v in s.swaps ==> v in s'.swaps && s'.swaps[v] == s.swaps[v];
    assert forall i :: 0 <= i < |s.sessions| && i != who ==> s'.sessions[i] == s.sessions[i];
    assert Remembers(s.slots[0], s.sessions[who]);
  }

  lemma BegunMemory(s: State, who: nat, request: Request)
    requires MemoryInv(s) && who < |s.sessions| && !Busy(s, who)
    ensures MemoryInv(Next(s, Begin(who, request)))
  {
    assert forall i :: 0 <= i < |s.sessions| ==> Remembers(s.slots[0], s.sessions[i]);
  }

  lemma BegunCalls(s: State, who: nat, request: Request)
    requires Shaped(s) && CallsInv(s) && who < |s.sessions| && !Busy(s, who)
    ensures CallsInv(Next(s, Begin(who, request)))
  {
    var s' := Next(s, Begin(who, request));
    assert forall i :: 0 <= i < |s.sessions| && i != who ==>
             s'.sessions[i] == s.sessions[i] && (Busy(s', i) ==> Busy(s, i));
  }

  lemma BegunSwaps(s: State, who: nat, request: Request)
    requires Shaped(s) && SwapsInv(s) && who < |s.sessions| && !Busy(s, who)
    ensures SwapsInv(Next(s, Begin(who, request)))
  {
    var s' := Next(s, Begin(who, request));
    assert forall i :: 0 <= i < |s.sessions| && i != who ==> s'.sessions[i] == s.sessions[i];
  }

  lemma NextInv(s: State, move: Move)
    requires Inv(s)
    ensures Inv(Next(s, move))
  {
    if move.who < |s.sessions| {
      if move.Act? && Busy(s, move.who) {
        ActedMemory(s, move.who, move.fault);
        ActedCalls(s, move.who, move.fault);
        ActedSwaps(s, move.who, move.fault);
      } else if move.Begin? && !Busy(s, move.who) {
        BegunMemory(s, move.who, move.request);
        BegunCalls(s, move.who, move.request);
        BegunSwaps(s, move.who, move.request);
      }
    }
  }

  lemma {:induction false} RunInv(s: State, moves: seq<Move>)
    requires Inv(s)
    ensures Inv(Run(s, moves))
    decreases |moves|
  {
    if moves != [] {
      NextInv(s, moves[0]);
      RunInv(Next(s, moves[0]), moves[1..]);
    }
  }

  lemma {:induction false} RunPrefix(s: State, moves: seq<Move>, k: nat)
    requires Shaped(s) && k < |moves|
    ensures Run(s, moves[..k + 1]) == Next(Run(s, moves[..k]), moves[k])
    decreases k
  {
    if k > 0 {
      assert moves[..k + 1][1..] == moves[1..][..k] && moves[..k][1..] == moves[1..][..k - 1];
      RunPrefix(Next(s, moves[0]), moves[1..], k - 1);
    }
  }

  lemma {:induction false} RunConcat(s: State, first: seq<Move>, second: seq<Move>)
    requires Shaped(s)
    ensures Run(s, first + second) == Run(Run(s, first), second)
    decreases |first|
  {
    if first == [] {
      assert first + second == second;
    } else {
      assert (first + second)[1..] == first[1..] + second;
      RunConcat(Next(s, first[0]), first[1..], second);
    }
  }

  // ----- exclusivity

  /** In every run, no two successful Updates replaced the same primary version, and each replaced
      exactly the primary its caller last saw. */
  lemma UpdatesExclusive(slots: seq<Slot>, ids: seq<string>, moves: seq<Move>)
    requires slots != []
    ensures var wins := Run(Start(slots, ids), moves).wins;
            && (forall k :: 0 <= k < |wins| ==> wins[k].replaced.Present? && wins[k].replaced == wins[k].basis)
            && (forall k, l :: 0 <= k < l < |wins| ==> wins[k].replaced.version != wins[l].replaced.version)
  {
    StartInv(slots, ids);
    RunInv(Start(slots, ids), moves);
  }

  // ----- recognising oneself

  ghost predicate AllName(rs: seq<Record>, id: string) {
    forall j :: 0 <= j < |rs| ==> rs[j].holder == id
  }

  /** What a Get of `id` standing here carries, against what it has read so far. */
  ghost predicate Carries(n: nat, id: string, op: Op, found: seq<Record>) {
    match op
    case GetPrimary => found == []
    case GetSecondary(i, primary, _) => |found| == i && (primary.holder == id <==> AllName(found, id))
    case Resting(Got(record, _)) => record.holder == id ==> |found| == n && AllName(found, id)
    case _ => true
  }

  ghost predicate Tracks(n: nat, me: Session) { Carries(n, me.client.id, me.client.op, me.found) }

  lemma AllNameMore(rs: seq<Record>, r: Record, id: string)
    ensures AllName(rs + [r], id) <==> AllName(rs, id) && r.holder == id
  {
    assert (rs + [r])[|rs|] == r && forall j :: 0 <= j < |rs| ==> (rs + [r])[j] == rs[j];
  }

  lemma StepCarries(slots: seq<Slot>, c: Client, fault: Fault, found: seq<Record>)
    requires WellFormed(slots, c) && !c.op.Resting? && c.id != UNKNOWN_LEADER && Carries(|slots|, c.id, c.op, found)
    ensures Carries(|slots|, c.id, Step(slots, c, fault).1.op, found + ReadBy(slots, c, fault))
  {
    if ReadBy(slots, c, fault) != [] {
      AllNameMore(found, slots[Target(c.op)].record, c.id);
    } else {
      assert found + ReadBy(slots, c, fault) == found;
    }
  }

  lemma TracksNext(s: State, move: Move, c: nat)
    requires Shaped(s) && c < |s.sessions| && s.sessions[c].client.id != UNKNOWN_LEADER
    requires Tracks(|s.slots|, s.sessions[c])
    ensures Tracks(|s.slots|, Next(s, move).sessions[c])
  {
    if move.who == c && move.Act? && Busy(s, c) {
      StepCarries(s.slots, s.sessions[c].client, move.fault, s.sessions[c].found);
    }
  }

  ghost predicate HeldAt(s: State, call: nat, j: nat, rec: Record)
    requires j < |s.slots|
  {
    call < s.nextCall && s.slots[j].Present? && s.slots[j].record == rec
  }

  /** Lease `j` held the record `rec` at some moment of the run after call `call` began. */
  ghost predicate HeldSince(s: State, moves: seq<Move>, call: nat, j: nat, rec: Record)
    requires Shaped(s) && j < |s.slots|
  {
    exists k :: 0 <= k <= |moves| && HeldAt(Run(s, moves[..k]), call, j, rec)
  }

  ghost predicate NamedSince(s: State, moves: seq<Move>, call: nat, j: nat, id: string)
    requires Shaped(s) && j < |s.slots|
  {
    exists rec: Record :: rec.holder == id && HeldSince(s, moves, call, j, rec)
  }

  lemma HeldLonger(s: State, moves: seq<Move>, last: Move, call: nat, j: nat, rec: Record)
    requires Shaped(s) && j < |s.slots| && HeldSince(s, moves, call, j, rec)
    ensures HeldSince(s, moves + [last], call, j, rec)
  {
    var k :| 0 <= k <= |moves| && HeldAt(Run(s, moves[..k]), call, j, rec);
    assert (moves + [last])[..k] == moves[..k];
  }

  /** A move empties the list of found records, keeps it, or adds what the next lease holds. */
  lemma FoundNext(s: State, move: Move, c: nat)
    requires Shaped(s) && c < |s.sessions| && Tracks(|s.slots|, s.sessions[c])
    ensures var (me, me') := (s.sessions[c], Next(s, move).sessions[c]);
            && me'.client.id == me.client.id
            && (me'.found == []
                || (me'.found == me.found && me'.call == me.call)
                || (me'.call == me.call && |me.found| < |s.slots| && s.slots[|me.found|].Present? && Busy(s, c)
                    && me'.found == me.found + [s.slots[|me.found|].record]))
  {
  }

  lemma HeldNow(s: State, moves: seq<Move>, last: Move, call: nat, j: nat, rec: Record)
    requires Shaped(s) && j < |s.slots| && HeldAt(Run(s, moves), call, j, rec)
    ensures HeldSince(s, moves + [last], call, j, rec)
  {
    assert (moves + [last])[..|moves|] == moves;
  }

  lemma HeldNext(s: State, init: seq<Move>, last: Move, c: nat)
    requires Shaped(s) && c < |s.sessions| && CallsInv(Run(s, init)) && Tracks(|s.slots|, Run(s, init).sessions[c])
    requires var me := Run(s, init).sessions[c];
             |me.found| <= |s.slots| && forall j :: 0 <= j < |me.found| ==> HeldSince(s, init, me.call, j, me.found[j])
    ensures var me := Next(Run(s, init), last).sessions[c];
            && |me.found| <= |s.slots|
            && forall j :: 0 <= j < |me.found| ==> HeldSince(s, init + [last], me.call, j, me.found[j])
  {
    var (me0, me1) := (Run(s, init).sessions[c], Next(Run(s, init), last).sessions[c]);
    FoundNext(Run(s, init), last, c);
    forall j | 0 <= j < |me1.found| ensures HeldSince(s, init + [last], me1.call, j, me1.found[j]) {
      if j < |me0.found| {
        HeldLonger(s, init, last, me0.call, j, me0.found[j]);
      } else {
        HeldNow(s, init, last, me1.call, j, me1.found[j]);
      }
    }
  }

  /** Every record a Get has read was held by that lease at a moment since the call began. */
  lemma {:induction false} ReadsWereHeld(s: State, moves: seq<Move>, c: nat)
    requires Inv(s) && c < |s.sessions| && s.sessions[c].client.id != UNKNOWN_LEADER
    requires s.sessions[c].client.op == Resting(Failed(NotInitialized)) && s.sessions[c].found == []
    ensures var me := Run(s, moves).sessions[c];
            && Tracks(|s.slots|, me) && me.client.id == s.sessions[c].client.id
            && |me.found| <= |s.slots|
            && forall j :: 0 <= j < |me.found| ==> HeldSince(s, moves, me.call, j, me.found[j])
    decreases |moves|
  {
    if moves != [] {
      var (init, last) := (moves[..|moves| - 1], moves[|moves| - 1]);
      assert moves == init + [last] && moves[..|init| + 1] == moves && moves[..|init|] == init;
      ReadsWereHeld(s, init, c);
      RunInv(s, init);
      RunPrefix(s, moves, |init|);
      FoundNext(Run(s, init), last, c);
      TracksNext(Run(s, init), last, c);
      HeldNext(s, init, last, c);
    }
  }

  /** In every run, a Get that names its caller read every lease while it named the caller. */
  lemma SelfRecognised(slots: seq<Slot>, ids: seq<string>, moves: seq<Move>, c: nat)
    requires slots != [] && c < |ids| && ids[c] != UNKNOWN_LEADER
    requires var op := Run(Start(slots, ids), moves).sessions[c].client.op;
             op.Resting? && op.answer.Got? && op.answer.record.holder == ids[c]
    ensures var me := Run(Start(slots, ids), moves).sessions[c];
            forall j :: 0 <= j < |slots| ==> NamedSince(Start(slots, ids), moves, me.call, j, ids[c])
  {
    StartInv(slots, ids);
    ReadsWereHeld(Start(slots, ids), moves, c);
    var me := Run(Start(slots, ids), moves).sessions[c];
    forall j | 0 <= j < |slots| ensures NamedSince(Start(slots, ids), moves, me.call, j, ids[c])
    {
      assert me.found[j].holder == ids[c] && HeldSince(Start(slots, ids), moves, me.call, j, me.found[j]);
    }
  }
}
