/** What one composite call does when nobody interferes: what Get observes, and how repeated
    Updates bring every cluster's lease to the same record. */
module MultiLockLaws {
  import opened Wrappers
  import opened Leases
  import opened MultiLock

  /** The records of the leases before the first missing one. */
  function Prefix(slots: seq<Slot>): (rs: seq<Record>)
    ensures |rs| <= |slots| && (|rs| < |slots| ==> slots[|rs|].Absent?)
    ensures forall i :: 0 <= i < |rs| ==> slots[i].Present? && slots[i].record == rs[i]
  {
    if slots == [] || slots[0].Absent? then []
    else [slots[0].record] + Prefix(slots[1..])
  }

  ghost predicate Agree(rs: seq<Record>) {
    forall i :: 0 <= i < |rs| ==> rs[i].holder == rs[0].holder
  }

  /** No record names the marker of a split observation. */
  ghost predicate NoMarker(rs: seq<Record>) {
    forall i :: 0 <= i < |rs| ==> rs[i].holder != UNKNOWN_LEADER
  }

  /** The record and the raw record seen for these lease records: everything when they agree on
      a holder, otherwise only the masked primary and the last secondary. */
  ghost function Observation(rs: seq<Record>): (Record, seq<Record>)
    requires rs != []
  {
    if Agree(rs) then (rs[0], rs) else (Mask(rs[0]), [Mask(rs[0]), rs[|rs| - 1]])
  }

  /** What a composite Get answers to `id` on these leases. */
  ghost function Observed(id: string, slots: seq<Slot>): Answer {
    var rs := Prefix(slots);
    if rs == [] then Failed(NotFound)
    else if |rs| < |slots| && Observation(rs).0.holder == id then Failed(NotFound)
    else Got(Observation(rs).0, Observation(rs).1)
  }

  /** One more record changes the observation as one more read does. */
  lemma ObservationNext(rs: seq<Record>, i: nat)
    requires 1 <= i < |rs| && NoMarker(rs)
    ensures var (primary, raw) := Observation(rs[..i]);
            Observation(rs[..i + 1]) ==
              if primary.holder == rs[i].holder then (primary, raw + [rs[i]])
              else (Mask(primary), [Mask(primary), rs[i]])
  {
    var (before, after) := (rs[..i], rs[..i + 1]);
    assert after == before + [rs[i]];
    assert !Agree(before) ==> !Agree(after) by {
      if Agree(after) {
        forall j | 0 <= j < i ensures before[j].holder == before[0].holder { assert after[j] == before[j]; }
      }
    }
    assert Agree(after) ==> after[i].holder == rs[0].holder;
  }

  /** An undisturbed Get goes on from the reply of the next secondary. */
  lemma ReadsNext(slots: seq<Slot>, c: Client) returns (c': Client)
    requires WellFormed(slots, c) && c.op.GetSecondary?
    ensures WellFormed(slots, c') && c'.id == c.id && Finish(slots, c, NoFaults) == Finish(slots, c', NoFaults)
    ensures var slot := slots[c.op.i];
            c'.op == AfterRead(c.id, |slots|, c.op.i, c.op.primary, c.op.raw,
                               if slot.Present? then Found(slot.record) else Refused(NotFound))
  {
    c' := Step(slots, c, Clean).1;
    FinishStep(slots, c, NoFaults, slots, c');
  }

  /** Reading on, a Get carries the observation of all leases before the first missing one. */
  lemma {:induction false} ObservesPrefix(slots: seq<Slot>, c: Client, i: nat) returns (c': Client)
    requires WellFormed(slots, c) && NoMarker(Prefix(slots)) && 1 <= i <= |Prefix(slots)|
    requires var (primary, raw) := Observation(Prefix(slots)[..i]);
             c.op == GettingFrom(|slots|, i, primary, raw)
    ensures WellFormed(slots, c') && c'.id == c.id && Finish(slots, c, NoFaults) == Finish(slots, c', NoFaults)
    ensures var (primary, raw) := Observation(Prefix(slots));
            c'.op == GettingFrom(|slots|, |Prefix(slots)|, primary, raw)
    decreases |slots| - i
  {
    var rs := Prefix(slots);
    if i < |rs| {
      var next := ReadsNext(slots, c);
      ObservationNext(rs, i);
      c' := ObservesPrefix(slots, next, i + 1);
    } else {
      assert rs[..i] == rs;
      c' := c;
    }
  }

  /** There it ends: on the last lease with what it carries, on a missing one with that or an error. */
  lemma ObservesEnd(slots: seq<Slot>, c: Client, primary: Record, raw: seq<Record>)
    requires WellFormed(slots, c) && 1 <= |Prefix(slots)|
    requires c.op == GettingFrom(|slots|, |Prefix(slots)|, primary, raw)
    ensures var (slots', c') := Finish(slots, c, NoFaults);
            && slots' == slots
            && c'.op == Resting(if |Prefix(slots)| < |slots| && primary.holder == c.id then Failed(NotFound)
                                else Got(primary, raw))
  {
    if |Prefix(slots)| < |slots| {
      var c' := ReadsNext(slots, c);
    }
  }

  /** Get on an undisturbed store answers exactly `Observed`, and changes no lease. */
  lemma GetObserves(slots: seq<Slot>, c: Client)
    requires WellFormed(slots, c) && c.op == GetPrimary && c.id != UNKNOWN_LEADER
    requires NoMarker(Prefix(slots))
    ensures var (slots', c') := Finish(slots, c, NoFaults);
            slots' == slots && c'.op == Resting(Observed(c.id, slots))
  {
    var c1 := Step(slots, c, Clean).1;
    FinishStep(slots, c, NoFaults, slots, c1);
    if slots[0].Present? {
      assert Prefix(slots)[..1] == [slots[0].record];
      var c2 := ObservesPrefix(slots, c1, 1);
      var (primary, raw) := Observation(Prefix(slots));
      ObservesEnd(slots, c2, primary, raw);
    }
  }

  /** What a Get that answers says of the leases up to the first missing one: the primary's record when
      they agree on a holder, with a copy of each record; otherwise the primary's record but for the
      holder, which is the unknown marker, with only that and the last lease's record as copies. */
  lemma ObservedRecord(id: string, slots: seq<Slot>)
    requires Observed(id, slots).Got?
    ensures var (answer, rs) := (Observed(id, slots), Prefix(slots));
            && rs != [] && answer.record.details == slots[0].record.details && answer.raw[0] == answer.record
            && (Agree(rs) ==> answer.record.holder == slots[0].record.holder && answer.raw == rs)
            && (!Agree(rs) ==> answer.record.holder == UNKNOWN_LEADER && answer.raw[1..] == [slots[|rs| - 1].record])
  {
  }

  /** A unanimous state is determined by its raw record, which no split state shares. */
  lemma RawRecordDecides(a: seq<Record>, b: seq<Record>)
    requires a != [] && b != [] && NoMarker(a) && NoMarker(b)
    requires Observation(a).1 == Observation(b).1
    ensures Agree(a) == Agree(b)
    ensures Agree(a) ==> a == b
  {
  }

  ghost predicate Names(slots: seq<Slot>, n: nat, id: string)
    requires n <= |slots|
  {
    forall i :: 0 <= i < n ==> slots[i].Present? && slots[i].record.holder == id
  }

  ghost predicate AnswersSelf(c: Client) {
    c.op.Resting? && c.op.answer.Got? && c.op.answer.record.holder == c.id
  }

  lemma {:induction false} SelfFrom(slots: seq<Slot>, c: Client, i: nat, primary: Record, raw: seq<Record>,
                                    faults: Faults)
    requires WellFormed(slots, c) && c.id != UNKNOWN_LEADER && 1 <= i <= |slots|
    requires c.op == GettingFrom(|slots|, i, primary, raw)
    requires primary.holder == c.id <==> Names(slots, i, c.id)
    ensures AnswersSelf(Finish(slots, c, faults).1) ==> Names(slots, |slots|, c.id)
    ensures faults == NoFaults && Names(slots, |slots|, c.id) ==> AnswersSelf(Finish(slots, c, faults).1)
    decreases |slots| - i
  {
    if i < |slots| {
      var fault := faults(i, Reading);
      var reply := ReadSlot(slots[i], c.cache[i], fault).1;
      var (_, c') := Step(slots, c, fault);
      if reply.Found? {
        var (primary', raw') := if primary.holder != reply.record.holder
          then (Mask(primary), [Mask(primary), reply.record]) else (primary, raw + [reply.record]);
        SelfFrom(slots, c', i + 1, primary', raw', faults);
      } else {
        assert c'.op == AfterRead(c.id, |slots|, i, primary, raw, reply);
        FinishStep(slots, c, faults, slots, c');
      }
    }
  }

  /** Get names the caller only if every lease exists and names it; without faults, exactly then. */
  lemma SelfRecognition(slots: seq<Slot>, c: Client, faults: Faults)
    requires WellFormed(slots, c) && c.op == GetPrimary && c.id != UNKNOWN_LEADER
    ensures AnswersSelf(Finish(slots, c, faults).1) ==> Names(slots, |slots|, c.id)
    ensures faults == NoFaults ==> (AnswersSelf(Finish(slots, c, faults).1) <==> Names(slots, |slots|, c.id))
  {
    var fault := faults(0, Reading);
    var reply := ReadSlot(slots[0], c.cache[0], fault).1;
    var (slots', c') := Step(slots, c, fault);
    FinishStep(slots, c, faults, slots', c');
    if reply.Found? {
      SelfFrom(slots, c', 1, reply.record, [reply.record], faults);
    } else {
      assert c'.op == Resting(Failed(reply.error));
    }
  }

  lemma {:induction false} FillsFrom(slots: seq<Slot>, c: Client, i: nat, rec: Record)
    requires WellFormed(slots, c) && i <= |slots| && c.op == CreatingFrom(|slots|, i, rec)
    ensures var (slots', c') := Finish(slots, c, NoFaults);
            && c'.op == Resting(Done)
            && forall j :: 0 <= j < |slots| ==>
                 slots'[j] == if j < i || slots[j].Present? then slots[j] else Present(0, rec)
    decreases |slots| - i
  {
    if i < |slots| {
      var (slots', c') := Step(slots, c, Clean);
      FinishStep(slots, c, NoFaults, slots', c');
      FillsFrom(slots', c', i + 1, rec);
    }
  }

  /** An undisturbed Create fills every missing lease, touches no other, and never fails. */
  lemma CreateFills(slots: seq<Slot>, c: Client, rec: Record)
    requires WellFormed(slots, c) && c.op == CreateAt(0, rec)
    ensures var (slots', c') := Finish(slots, c, NoFaults);
            && c'.op == Resting(Done)
            && forall j :: 0 <= j < |slots| ==> slots'[j] == if slots[j].Present? then slots[j] else Present(0, rec)
  {
    FillsFrom(slots, c, 0, rec);
  }

  /** Undisturbed, a Create leaves its caller holding every lease if and only if every lease that
      existed before named the caller: what it passed over as already existing may be another's. */
  lemma CreateOwnsIff(slots: seq<Slot>, c: Client, rec: Record)
    requires WellFormed(slots, c) && c.op == CreateAt(0, rec) && rec.holder == c.id
    ensures Names(Finish(slots, c, NoFaults).0, |slots|, c.id)
       <==> forall i :: 0 <= i < |slots| && slots[i].Present? ==> slots[i].record.holder == c.id
  {
    CreateFills(slots, c, rec);
    var slots' := Finish(slots, c, NoFaults).0;
    assert forall i :: 0 <= i < |slots| && slots[i].Present? ==> slots'[i] == slots[i];
  }

  /** From lease `from` on, the leases up to `m` rewritten, `m` created, the others untouched. */
  ghost predicate WrittenTo(was: seq<Slot>, now: seq<Slot>, from: nat, m: nat, rec: Record)
    requires m <= |was| == |now| && forall j :: 0 <= j < m ==> was[j].Present?
  {
    && (forall j :: 0 <= j < |was| && (j < from || m < j) ==> now[j] == was[j])
    && (forall j :: from <= j < m ==> now[j] == Present(was[j].version + 1, rec))
    && (from <= m < |was| ==> now[m] == Present(0, rec))
  }

  /** The leases after an undisturbed Update: written up to the first missing one, which is
      created; those after it untouched. */
  ghost predicate Overwritten(was: seq<Slot>, now: seq<Slot>, from: nat, rec: Record)
    requires |was| == |now|
  {
    WrittenTo(was, now, from, |Prefix(was)|, rec)
  }

  /** Re-reading a secondary and then writing it leaves the record there, whatever was cached. */
  lemma OverwritesOne(slots: seq<Slot>, c: Client, i: nat, rec: Record) returns (slots': seq<Slot>, c': Client)
    requires WellFormed(slots, c) && c.op == RefreshAt(i, rec)
    ensures WellFormed(slots', c') && |slots'| == |slots| && c'.cache[0] == c.cache[0]
    ensures slots' == slots[i := if slots[i].Absent? then Present(0, rec) else Present(slots[i].version + 1, rec)]
    ensures c'.op == if slots[i].Absent? then Resting(Done) else UpdatingFrom(|slots|, i + 1, rec)
    ensures Finish(slots, c, NoFaults) == Finish(slots', c', NoFaults)
  {
    var (_, c1) := Step(slots, c, Clean);
    FinishStep(slots, c, NoFaults, slots, c1);
    var r := Step(slots, c1, Clean);
    slots', c' := r.0, r.1;
    FinishStep(slots, c1, NoFaults, slots', c');
  }

  lemma WrittenNext(was: seq<Slot>, mid: seq<Slot>, now: seq<Slot>, i: nat, m: nat, rec: Record)
    requires |was| == |mid| == |now| && i < m <= |was| && forall j :: 0 <= j < m ==> was[j].Present?
    requires mid == was[i := Present(was[i].version + 1, rec)]
    requires WrittenTo(mid, now, i + 1, m, rec)
    ensures WrittenTo(was, now, i, m, rec)
  {
  }

  lemma OverwrittenNext(was: seq<Slot>, mid: seq<Slot>, now: seq<Slot>, i: nat, rec: Record)
    requires |was| == |mid| == |now| && i < |Prefix(was)| == |Prefix(mid)|
    requires mid == was[i := Present(was[i].version + 1, rec)]
    requires Overwritten(mid, now, i + 1, rec)
    ensures Overwritten(was, now, i, rec)
  {
    WrittenNext(was, mid, now, i, |Prefix(was)|, rec);
  }

  /** Rewriting a present lease moves no missing one. */
  lemma {:induction false} PrefixKept(slots: seq<Slot>, slots': seq<Slot>, i: nat)
    requires |slots| == |slots'| && i < |slots| && slots[i].Present? && slots'[i].Present?
    requires forall j :: 0 <= j < |slots| && j != i ==> slots'[j] == slots[j]
    ensures |Prefix(slots')| == |Prefix(slots)|
  {
  }

  lemma {:induction false} OverwritesFrom(slots: seq<Slot>, c: Client, i: nat, rec: Record)
    requires WellFormed(slots, c) && 1 <= i <= |slots| && i <= |Prefix(slots)|
    requires c.op == UpdatingFrom(|slots|, i, rec)
    ensures var (slots', c') := Finish(slots, c, NoFaults);
            && Overwritten(slots, slots', i, rec)
            && c'.op == Resting(Done) && c'.cache[0] == c.cache[0]
    decreases |slots| - i
  {
    var m := |Prefix(slots)|;
    if i < |slots| {
      var slots2, c2 := OverwritesOne(slots, c, i, rec);
      if i < m {
        PrefixKept(slots, slots2, i);
        OverwritesFrom(slots2, c2, i + 1, rec);
        OverwrittenNext(slots, slots2, Finish(slots2, c2, NoFaults).0, i, rec);
      }
    }
  }

  /** Update with a current view of the primary, undisturbed. */
  lemma UpdateOverwrites(slots: seq<Slot>, c: Client, rec: Record)
    requires WellFormed(slots, c) && c.op == UpdatePrimary(rec)
    requires slots[0].Present? && c.cache[0] == Some(slots[0].version)
    ensures var (slots', c') := Finish(slots, c, NoFaults);
            && Overwritten(slots, slots', 0, rec)
            && c'.op == Resting(Done) && c'.cache[0] == Some(slots[0].version + 1)
  {
    var (slots1, c1) := Step(slots, c, Clean);
    FinishStep(slots, c, NoFaults, slots1, c1);
    PrefixKept(slots, slots1, 0);
    OverwritesFrom(slots1, c1, 1, rec);
    OverwrittenNext(slots, slots1, Finish(slots1, c1, NoFaults).0, 0, rec);
  }

  ghost function Missing(slots: seq<Slot>): set<int> {
    set i | 0 <= i < |slots| && slots[i].Absent?
  }

  /** Undisturbed Updates made one after another. */
  ghost function UpdateAll(slots: seq<Slot>, c: Client, recs: seq<Record>): (r: (seq<Slot>, Client))
    requires WellFormed(slots, c)
    ensures WellFormed(r.0, r.1) && |r.0| == |slots|
    decreases |recs|
  {
    if recs == [] then (slots, c)
    else
      var (slots', c') := Finish(slots, c.(op := UpdatePrimary(recs[0])), NoFaults);
      UpdateAll(slots', c', recs[1..])
  }

  ghost predicate AllHold(slots: seq<Slot>, rec: Record) {
    forall i :: 0 <= i < |slots| ==> slots[i].Present? && slots[i].record == rec
  }

  /** An Update fills the first missing lease and leaves the others missing. */
  lemma OneLessMissing(was: seq<Slot>, now: seq<Slot>, rec: Record)
    requires |was| == |now| && Overwritten(was, now, 0, rec)
    ensures if |Prefix(was)| < |was| then |Missing(now)| == |Missing(was)| - 1 else Missing(was) == Missing(now) == {}
  {
    var m := |Prefix(was)|;
    if m < |was| {
      assert m in Missing(was) && Missing(now) == Missing(was) - {m};
    } else {
      assert forall i :: 0 <= i < m ==> was[i].Present? && now[i].Present?;
    }
  }

  /** With k leases missing, more than k Updates leave every lease holding the last record. */
  lemma {:induction false} UpdatesConverge(slots: seq<Slot>, c: Client, recs: seq<Record>)
    requires WellFormed(slots, c) && slots[0].Present? && c.cache[0] == Some(slots[0].version)
    requires |Missing(slots)| < |recs|
    ensures AllHold(UpdateAll(slots, c, recs).0, recs[|recs| - 1])
    decreases |recs|
  {
    var (slots', c') := Finish(slots, c.(op := UpdatePrimary(recs[0])), NoFaults);
    UpdateOverwrites(slots, c.(op := UpdatePrimary(recs[0])), recs[0]);
    OneLessMissing(slots, slots', recs[0]);
    if |recs| > 1 {
      UpdatesConverge(slots', c', recs[1..]);
      assert recs[1..][|recs| - 2] == recs[|recs| - 1];
    }
  }

  ghost function Copies(n: nat, rec: Record): seq<Record> { seq(n, _ => rec) }

  /** Whoever performs an undisturbed Get on these leases is told `rec`, with every copy in the raw record. */
  ghost predicate ReadsBack(slots: seq<Slot>, rec: Record) {
    forall reader: Client {:trigger WellFormed(slots, reader)} ::
      WellFormed(slots, reader) && reader.op == GetPrimary && reader.id != UNKNOWN_LEADER ==>
        Finish(slots, reader, NoFaults).1.op == Resting(Got(rec, Copies(|slots|, rec)))
  }

  lemma UnanimousGet(slots: seq<Slot>, rec: Record)
    requires AllHold(slots, rec) && slots != [] && rec.holder != UNKNOWN_LEADER
    ensures ReadsBack(slots, rec)
  {
    assert Prefix(slots) == Copies(|slots|, rec);
    forall reader: Client | WellFormed(slots, reader) && reader.op == GetPrimary && reader.id != UNKNOWN_LEADER
      ensures Finish(slots, reader, NoFaults).1.op == Resting(Got(rec, Copies(|slots|, rec)))
    {
      GetObserves(slots, reader);
    }
  }

  /** After more than k Updates with k leases missing, the next Get returns the last record written. */
  lemma GetAfterUpdates(slots: seq<Slot>, c: Client, recs: seq<Record>)
    requires WellFormed(slots, c) && slots[0].Present? && c.cache[0] == Some(slots[0].version)
    requires |Missing(slots)| < |recs| && recs[|recs| - 1].holder != UNKNOWN_LEADER
    ensures ReadsBack(UpdateAll(slots, c, recs).0, recs[|recs| - 1])
  {
    UpdatesConverge(slots, c, recs);
    UnanimousGet(UpdateAll(slots, c, recs).0, recs[|recs| - 1]);
  }
}
