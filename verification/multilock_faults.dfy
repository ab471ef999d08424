/** What one composite call has done when it returns, under any faults but with nobody interfering. */
module MultiLockFaults {
  import opened Wrappers
  import opened Leases
  import opened MultiLock
  import opened MultiLockLaws

  // ----- Update

  /** A lease after a write of this record. */
  function Rewritten(slot: Slot, rec: Record): Slot {
    if slot.Absent? then Present(0, rec) else Present(slot.version + 1, rec)
  }

  /** The two lease calls on one secondary: if the Update does not end there with an error, the lease
      holds the record, and what happens next is as without faults. */
  lemma SecondaryWritten(slots: seq<Slot>, c: Client, i: nat, rec: Record, faults: Faults)
    returns (slots': seq<Slot>, c': Client)
    requires WellFormed(slots, c) && c.op == RefreshAt(i, rec)
    ensures WellFormed(slots', c') && Finish(slots, c, faults) == Finish(slots', c', faults)
    ensures |slots'| == |slots| && forall j :: 0 <= j < |slots| && j != i ==> slots'[j] == slots[j]
    ensures slots'[i] == slots[i] || slots'[i] == Rewritten(slots[i], rec)
    ensures || (c'.op.Resting? && c'.op.answer.Failed?)
            || (slots'[i] == Rewritten(slots[i], rec)
                && c'.op == if slots[i].Absent? then Resting(Done) else UpdatingFrom(|slots|, i + 1, rec))
  {
    var (slots1, c1) := Step(slots, c, faults(i, Reading));
    FinishStep(slots, c, faults, slots1, c1);
    var r := Step(slots1, c1, faults(i, Kind(c1.op)));
    slots', c' := r.0, r.1;
    FinishStep(slots1, c1, faults, slots', c');
  }

  /** From lease `from` on, the leases before `m` rewritten, none missing among them; `m` rewritten,
      created or untouched; the others untouched. */
  ghost predicate WrittenUpTo(was: seq<Slot>, now: seq<Slot>, from: nat, m: nat, rec: Record)
    requires |was| == |now|
  {
    && (forall j :: from <= j < m && j < |was| ==> was[j].Present? && now[j] == Rewritten(was[j], rec))
    && (from <= m < |was| ==> now[m] == was[m] || now[m] == Rewritten(was[m], rec))
    && (forall j :: 0 <= j < |was| && (j < from || m < j) ==> now[j] == was[j])
  }

  /** What an Update leaves that goes on from lease `i`: if it returned without error, every lease from
      there to the first missing one written, that one created; otherwise some leases, in order. */
  ghost predicate Leaves(was: seq<Slot>, r: (seq<Slot>, Client), i: nat, rec: Record)
    requires |was| == |r.0|
  {
    && r.1.op.Resting?
    && (r.1.op.answer == Done ==> Overwritten(was, r.0, i, rec))
    && (r.1.op.answer != Done ==>
          r.1.op.answer.Failed? && exists m: nat :: i <= m < |was| && WrittenUpTo(was, r.0, i, m, rec))
  }

  lemma UpToMore(was: seq<Slot>, mid: seq<Slot>, now: seq<Slot>, i: nat, m: nat, rec: Record)
    requires |was| == |mid| == |now| && i < |was| && was[i].Present? && i < m
    requires mid == was[i := Rewritten(was[i], rec)]
    requires WrittenUpTo(mid, now, i + 1, m, rec)
    ensures WrittenUpTo(was, now, i, m, rec)
  {
    assert now[i] == mid[i] == Rewritten(was[i], rec);
    assert forall j :: 0 <= j < |was| && j != i ==> mid[j] == was[j];
  }

  lemma LeavesMore(was: seq<Slot>, mid: seq<Slot>, r: (seq<Slot>, Client), i: nat, rec: Record)
    requires |was| == |mid| == |r.0| && i < |was| && was[i].Present? && i <= |Prefix(was)|
    requires mid == was[i := Rewritten(was[i], rec)]
    requires Leaves(mid, r, i + 1, rec)
    ensures Leaves(was, r, i, rec)
  {
    PrefixKept(was, mid, i);
    if r.1.op.answer == Done {
      OverwrittenNext(was, mid, r.0, i, rec);
    } else {
      var m: nat :| i + 1 <= m < |was| && WrittenUpTo(mid, r.0, i + 1, m, rec);
      UpToMore(was, mid, r.0, i, m, rec);
    }
  }

  /** Where the Update ends at secondary `i`. */
  lemma LeavesHere(was: seq<Slot>, r: (seq<Slot>, Client), i: nat, rec: Record)
    requires |was| == |r.0| && i < |was| && i <= |Prefix(was)|
    requires forall j :: 0 <= j < |was| && j != i ==> r.0[j] == was[j]
    requires r.0[i] == was[i] || r.0[i] == Rewritten(was[i], rec)
    requires r.1.op.Resting? && (r.1.op.answer.Failed? || r.1.op.answer.Done?)
    requires r.1.op.answer.Done? ==> was[i].Absent? && r.0[i] == Rewritten(was[i], rec)
    ensures Leaves(was, r, i, rec)
  {
    if r.1.op.answer.Done? {
      assert |Prefix(was)| == i;
    }
    assert WrittenUpTo(was, r.0, i, i, rec);
  }

  /** Where no secondary is left. */
  lemma LeavesAll(was: seq<Slot>, c: Client, rec: Record)
    requires |Prefix(was)| == |was| && c.op == Resting(Done)
    ensures Leaves(was, (was, c), |was|, rec)
  {
  }

  lemma {:induction false} Continues(slots: seq<Slot>, slots': seq<Slot>, c': Client, i: nat, rec: Record,
                                     faults: Faults)
    requires WellFormed(slots', c') && |slots'| == |slots| && 1 <= i < |slots| && i <= |Prefix(slots)|
    requires slots[i].Present? && slots' == slots[i := Rewritten(slots[i], rec)]
    requires c'.op == UpdatingFrom(|slots|, i + 1, rec)
    ensures Leaves(slots, Finish(slots', c', faults), i, rec)
    decreases |slots| - i, 0
  {
    PrefixKept(slots, slots', i);
    UpdateLeavesFrom(slots', c', i + 1, rec, faults);
    LeavesMore(slots, slots', Finish(slots', c', faults), i, rec);
  }

  lemma {:induction false} UpdateLeavesFrom(slots: seq<Slot>, c: Client, i: nat, rec: Record, faults: Faults)
    requires WellFormed(slots, c) && 1 <= i <= |slots| && i <= |Prefix(slots)|
    requires c.op == UpdatingFrom(|slots|, i, rec)
    ensures Leaves(slots, Finish(slots, c, faults), i, rec)
    decreases |slots| - i, 1
  {
    if i == |slots| {
      LeavesAll(slots, c, rec);
    } else {
      var slots', c' := SecondaryWritten(slots, c, i, rec, faults);
      if slots[i].Present? && c'.op == UpdatingFrom(|slots|, i + 1, rec) {
        Continues(slots, slots', c', i, rec, faults);
      } else {
        LeavesHere(slots, (slots', c'), i, rec);
      }
    }
  }

  /** Under any faults, an Update that returns without error has written every lease up to the first
      missing one and created that; one that returns an error has written the leases before some
      lease, perhaps that one, and none after it. */
  lemma UpdateLeaves(slots: seq<Slot>, c: Client, rec: Record, faults: Faults)
    requires WellFormed(slots, c) && c.op == UpdatePrimary(rec)
    ensures Leaves(slots, Finish(slots, c, faults), 0, rec)
  {
    var (slots1, c1) := Step(slots, c, faults(0, Updating));
    FinishStep(slots, c, faults, slots1, c1);
    if c1.op == UpdatingFrom(|slots|, 1, rec) {
      PrefixKept(slots, slots1, 0);
      UpdateLeavesFrom(slots1, c1, 1, rec, faults);
      LeavesMore(slots, slots1, Finish(slots1, c1, faults), 0, rec);
    } else {
      LeavesHere(slots, (slots1, c1), 0, rec);
    }
  }

  /** The write of secondary `i`, or its creation if it is missing, goes through: no call that counts is
      lost, and if the re-read is lost then the version cached before is current. */
  predicate GoesThrough(slots: seq<Slot>, cache: seq<Option<nat>>, i: nat, faults: Faults)
    requires i < |slots| == |cache|
  {
    if slots[i].Absent? then faults(i, Reading).Clean? && faults(i, Creating).Clean?
    else faults(i, Updating).Clean? && (faults(i, Reading).Clean? || cache[i] == Some(slots[i].version))
  }

  lemma SecondaryGoesThrough(slots: seq<Slot>, c: Client, i: nat, rec: Record, faults: Faults)
    returns (slots': seq<Slot>, c': Client)
    requires WellFormed(slots, c) && c.op == RefreshAt(i, rec)
    ensures WellFormed(slots', c') && Finish(slots, c, faults) == Finish(slots', c', faults)
    ensures |slots'| == |slots|
    ensures forall j :: 0 <= j < |slots| && j != i ==> slots'[j] == slots[j] && c'.cache[j] == c.cache[j]
    ensures slots[i].Present? ==> slots'[i].Present?
    ensures GoesThrough(slots, c.cache, i, faults) ==>
              c'.op == if slots[i].Absent? then Resting(Done) else UpdatingFrom(|slots|, i + 1, rec)
    ensures !GoesThrough(slots, c.cache, i, faults) ==> c'.op.Resting? && c'.op.answer.Failed?
  {
    var (slots1, c1) := Step(slots, c, faults(i, Reading));
    FinishStep(slots, c, faults, slots1, c1);
    var r := Step(slots1, c1, faults(i, Kind(c1.op)));
    slots', c' := r.0, r.1;
    FinishStep(slots1, c1, faults, slots', c');
  }

  /** Every write from lease `i` to the first missing one goes through. */
  ghost predicate AllGoThrough(slots: seq<Slot>, cache: seq<Option<nat>>, i: nat, faults: Faults)
    requires |slots| == |cache|
  {
    forall j :: i <= j < |slots| && j <= |Prefix(slots)| ==> GoesThrough(slots, cache, j, faults)
  }

  lemma GoThroughNext(slots: seq<Slot>, cache: seq<Option<nat>>, slots': seq<Slot>, cache': seq<Option<nat>>,
                      i: nat, faults: Faults)
    requires i < |slots| == |cache| == |slots'| == |cache'| && i <= |Prefix(slots)|
    requires forall j :: i < j < |slots| ==> slots'[j] == slots[j] && cache'[j] == cache[j]
    requires slots[i].Present? ==> |Prefix(slots')| == |Prefix(slots)|
    ensures AllGoThrough(slots, cache, i, faults) <==>
              && GoesThrough(slots, cache, i, faults)
              && (slots[i].Present? ==> AllGoThrough(slots', cache', i + 1, faults))
  {
    assert forall j :: i < j < |slots| ==>
             (GoesThrough(slots', cache', j, faults) <==> GoesThrough(slots, cache, j, faults));
  }

  lemma {:induction false} UpdateReturnsFrom(slots: seq<Slot>, c: Client, i: nat, rec: Record, faults: Faults)
    requires WellFormed(slots, c) && 1 <= i <= |slots| && i <= |Prefix(slots)|
    requires c.op == UpdatingFrom(|slots|, i, rec)
    ensures Finish(slots, c, faults).1.op == Resting(Done) <==> AllGoThrough(slots, c.cache, i, faults)
    decreases |slots| - i
  {
    if i < |slots| {
      var slots', c' := SecondaryGoesThrough(slots, c, i, rec, faults);
      if slots[i].Present? {
        PrefixKept(slots, slots', i);
      }
      GoThroughNext(slots, c.cache, slots', c'.cache, i, faults);
      if GoesThrough(slots, c.cache, i, faults) && slots[i].Present? {
        UpdateReturnsFrom(slots', c', i + 1, rec, faults);
      }
    }
  }

  /** Under any faults, an Update returns without error if and only if the caller's version of the
      primary is current, its write of the primary is not lost, and every write up to the first missing
      lease goes through. */
  lemma UpdateReturnsIff(slots: seq<Slot>, c: Client, rec: Record, faults: Faults)
    requires WellFormed(slots, c) && c.op == UpdatePrimary(rec)
    ensures Finish(slots, c, faults).1.op == Resting(Done) <==>
              && slots[0].Present? && c.cache[0] == Some(slots[0].version) && faults(0, Updating).Clean?
              && AllGoThrough(slots, c.cache, 1, faults)
  {
    var (slots1, c1) := Step(slots, c, faults(0, Updating));
    FinishStep(slots, c, faults, slots1, c1);
    if c1.op == UpdatingFrom(|slots|, 1, rec) {
      PrefixKept(slots, slots1, 0);
      UpdateReturnsFrom(slots1, c1, 1, rec, faults);
      assert forall j :: 1 <= j < |slots| ==>
               (GoesThrough(slots1, c1.cache, j, faults) <==> GoesThrough(slots, c.cache, j, faults));
    }
  }

  // ----- Create and Get

  /** The first lease from `i` on at which a call of this kind meets a fault, or `n`. */
  function FirstFaulty(faults: Faults, kind: Call, i: nat, n: nat): (k: nat)
    requires i <= n
    ensures i <= k <= n && (k < n ==> !faults(k, kind).Clean?)
    ensures forall j :: i <= j < k ==> faults(j, kind).Clean?
    decreases n - i
  {
    if i == n || !faults(i, kind).Clean? then i else FirstFaulty(faults, kind, i + 1, n)
  }

  /** Lease `j` after a Create whose first fault is at lease `k`. */
  function Created(slots: seq<Slot>, j: nat, k: nat, rec: Record, faults: Faults): Slot
    requires j < |slots|
  {
    if slots[j].Present? || k < j || (j == k && faults(k, Creating).Lost?) then slots[j] else Present(0, rec)
  }

  lemma {:induction false} CreatesFrom(slots: seq<Slot>, c: Client, i: nat, rec: Record, faults: Faults)
    requires WellFormed(slots, c) && i <= |slots| && c.op == CreatingFrom(|slots|, i, rec)
    ensures var ((slots', c'), k) := (Finish(slots, c, faults), FirstFaulty(faults, Creating, i, |slots|));
            && c'.op == Resting(if k == |slots| then Done else Failed(Unreachable))
            && forall j :: 0 <= j < |slots| ==>
                 slots'[j] == if j < i then slots[j] else Created(slots, j, k, rec, faults)
    decreases |slots| - i
  {
    if i < |slots| {
      var (slots', c') := Step(slots, c, faults(i, Creating));
      FinishStep(slots, c, faults, slots', c');
      if faults(i, Creating).Clean? {
        CreatesFrom(slots', c', i + 1, rec, faults);
      }
    }
  }

  /** Under any faults, a Create fills the missing leases up to the first faulty call, where it fails;
      it fails nowhere else. */
  lemma CreateExactly(slots: seq<Slot>, c: Client, rec: Record, faults: Faults)
    requires WellFormed(slots, c) && c.op == CreateAt(0, rec)
    ensures var ((slots', c'), k) := (Finish(slots, c, faults), FirstFaulty(faults, Creating, 0, |slots|));
            && c'.op == Resting(if k == |slots| then Done else Failed(Unreachable))
            && forall j :: 0 <= j < |slots| ==> slots'[j] == Created(slots, j, k, rec, faults)
  {
    CreatesFrom(slots, c, 0, rec, faults);
  }

  /** One read of a secondary. */
  lemma ReadsOne(slots: seq<Slot>, c: Client, faults: Faults) returns (c': Client)
    requires WellFormed(slots, c) && c.op.GetSecondary?
    ensures WellFormed(slots, c') && c'.id == c.id && Finish(slots, c, faults) == Finish(slots, c', faults)
    ensures var i := c.op.i;
            c'.op == AfterRead(c.id, |slots|, i, c.op.primary, c.op.raw,
                               if !faults(i, Reading).Clean? then Refused(Unreachable)
                               else if slots[i].Present? then Found(slots[i].record) else Refused(NotFound))
  {
    c' := Step(slots, c, faults(c.op.i, Reading)).1;
    FinishStep(slots, c, faults, slots, c');
  }

  /** What a Get answers whose first fault is at lease `k`: it reads up to the first missing lease. */
  ghost function Answered(id: string, slots: seq<Slot>, k: nat): Answer {
    if k < |slots| && k <= |Prefix(slots)| then Failed(Unreachable) else Observed(id, slots)
  }

  /** Past the last lease, or at the first missing one. */
  lemma AnswersEnd(slots: seq<Slot>, c: Client, faults: Faults)
    requires WellFormed(slots, c) && 1 <= |Prefix(slots)|
    requires var (primary, raw) := Observation(Prefix(slots));
             c.op == GettingFrom(|slots|, |Prefix(slots)|, primary, raw)
    ensures Finish(slots, c, faults).1.op
         == Resting(Answered(c.id, slots, FirstFaulty(faults, Reading, |Prefix(slots)|, |slots|)))
  {
    if |Prefix(slots)| < |slots| {
      var c' := ReadsOne(slots, c, faults);
    }
  }

  lemma {:induction false} AnswersFrom(slots: seq<Slot>, c: Client, i: nat, faults: Faults)
    requires WellFormed(slots, c) && NoMarker(Prefix(slots)) && 1 <= i <= |Prefix(slots)|
    requires var (primary, raw) := Observation(Prefix(slots)[..i]);
             c.op == GettingFrom(|slots|, i, primary, raw)
    ensures Finish(slots, c, faults).1.op
         == Resting(Answered(c.id, slots, FirstFaulty(faults, Reading, i, |slots|)))
    decreases |slots| - i
  {
    var rs := Prefix(slots);
    if i == |rs| {
      assert rs[..i] == rs;
      AnswersEnd(slots, c, faults);
    } else {
      var next := ReadsOne(slots, c, faults);
      if faults(i, Reading).Clean? {
        ObservationNext(rs, i);
        AnswersFrom(slots, next, i + 1, faults);
      }
    }
  }

  /** Under any faults, a Get answers what it would have observed without them, unless one meets it at
      or before the first missing lease. */
  lemma GetAnswers(slots: seq<Slot>, c: Client, faults: Faults)
    requires WellFormed(slots, c) && c.op == GetPrimary && c.id != UNKNOWN_LEADER
    requires NoMarker(Prefix(slots))
    ensures Finish(slots, c, faults).1.op
         == Resting(Answered(c.id, slots, FirstFaulty(faults, Reading, 0, |slots|)))
  {
    var c1 := Step(slots, c, faults(0, Reading)).1;
    FinishStep(slots, c, faults, slots, c1);
    if faults(0, Reading).Clean? && slots[0].Present? {
      assert Prefix(slots)[..1] == [slots[0].record];
      AnswersFrom(slots, c1, 1, faults);
    }
  }

  // ----- errors

  /** The error the next lease call of `c` meets, if any. */
  function ErrorMet(slot: Slot, c: Client, fault: Fault): Option<Error>
    requires !c.op.Resting? && Target(c.op) < |c.cache|
  {
    var cached := c.cache[Target(c.op)];
    match c.op
    case CreateAt(_, rec) => CreateSlot(slot, rec, fault).error
    case CreateMissing(_, rec) => CreateSlot(slot, rec, fault).error
    case UpdatePrimary(rec) => UpdateSlot(slot, cached, rec, fault).error
    case UpdateAt(_, rec) => UpdateSlot(slot, cached, rec, fault).error
    case _ =>
      var reply := ReadSlot(slot, cached, fault).1;
      if reply.Refused? then Some(reply.error) else None
  }

  /** A lease call's error ends the call and is the one returned, except in three places: a Create goes
      on past a lease that exists, an Update past a re-read however it fails, and a Get that finds a
      secondary missing answers while it carries another holder than its caller. */
  lemma ErrorsEndCalls(slots: seq<Slot>, c: Client, fault: Fault, e: Error)
    requires WellFormed(slots, c) && !c.op.Resting?
    ensures var op' := Step(slots, c, fault).1.op;
            op' == Resting(Failed(e)) <==>
              && ErrorMet(slots[Target(c.op)], c, fault) == Some(e)
              && !(c.op.CreateAt? && e == AlreadyExists)
              && !c.op.RefreshAt?
              && !(c.op.GetSecondary? && e == NotFound && c.op.primary.holder != c.id)
  {
  }

  /** After a lease call that met no error the caller's cached version of that lease is the current one;
      a failed creation leaves none; any other error leaves the one before; and the cached versions of
      the other leases stay. */
  lemma CacheFollows(slots: seq<Slot>, c: Client, fault: Fault)
    requires WellFormed(slots, c) && !c.op.Resting?
    ensures var (slots', c') := Step(slots, c, fault);
            var i := Target(c.op);
            var err := ErrorMet(slots[i], c, fault);
            && (err.None? ==> slots'[i].Present? && c'.cache == c.cache[i := Some(slots'[i].version)])
            && (err.Some? ==> c'.cache == if Kind(c.op) == Creating then c.cache[i := None] else c.cache)
  {
    var i := Target(c.op);
    assert c.cache[i := c.cache[i]] == c.cache;
  }
}
