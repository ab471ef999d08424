/** The lock built from a primary lease and any number of secondary leases (kube/multi.go).

    `Step` performs one lease call of one client; it is the unit other clients interleave with.
    `Finish` runs a client's call to its end without interference.  The class below has the
    source's own loops and is proved to do exactly what `Finish` does. */
module MultiLock {
  import opened Wrappers
  import opened Leases

  /** What a call on the composite lock returns. */
  datatype Answer = Got(record: Record, raw: seq<Record>) | Done | Failed(error: Error)

  /** Where a client stands: between calls, or about to make the lease call named. */
  datatype Op =
    | Resting(answer: Answer)
    | GetPrimary
    | GetSecondary(i: nat, primary: Record, raw: seq<Record>)
    | CreateAt(i: nat, rec: Record)
    | UpdatePrimary(rec: Record)
    | RefreshAt(i: nat, rec: Record)
    | CreateMissing(i: nat, rec: Record)
    | UpdateAt(i: nat, rec: Record)

  /** One client: its identity, its cached version of each lease (0 is the primary), its position. */
  datatype Client = Client(id: string, cache: seq<Option<nat>>, op: Op)

  datatype Call = Reading | Creating | Updating

  /** The fault, if any, that meets each kind of call on each lease. */
  type Faults = (nat, Call) -> Fault

  const NoFaults: Faults := (i, call) => Clean

  predicate WellFormed(slots: seq<Slot>, c: Client) {
    && 1 <= |slots| == |c.cache|
    && match c.op
       case GetSecondary(i, _, _) => 1 <= i < |slots|
       case CreateAt(i, _) => i < |slots|
       case RefreshAt(i, _) => 1 <= i < |slots|
       case CreateMissing(i, _) => 1 <= i < |slots|
       case UpdateAt(i, _) => 1 <= i < |slots|
       case _ => true
  }

  function Mask(r: Record): Record { r.(holder := UNKNOWN_LEADER) }

  function GettingFrom(n: nat, i: nat, primary: Record, raw: seq<Record>): Op {
    if i < n then GetSecondary(i, primary, raw) else Resting(Got(primary, raw))
  }

  function CreatingFrom(n: nat, i: nat, rec: Record): Op {
    if i < n then CreateAt(i, rec) else Resting(Done)
  }

  function UpdatingFrom(n: nat, i: nat, rec: Record): Op {
    if i < n then RefreshAt(i, rec) else Resting(Done)
  }

  /** The outcome of reading a secondary, given the primary record carried so far. */
  function AfterRead(id: string, n: nat, i: nat, primary: Record, raw: seq<Record>, reply: Reply): Op {
    match reply
    case Refused(e) =>
      if e == NotFound && primary.holder != id then Resting(Got(primary, raw)) else Resting(Failed(e))
    case Found(secondary) =>
      if primary.holder != secondary.holder
      then GettingFrom(n, i + 1, Mask(primary), [Mask(primary), secondary])
      else GettingFrom(n, i + 1, primary, raw + [secondary])
  }

  /** The lease a position calls on next. */
  function Target(op: Op): (i: nat)
    requires !op.Resting?
  {
    match op
    case GetSecondary(i, _, _) => i
    case CreateAt(i, _) => i
    case RefreshAt(i, _) => i
    case CreateMissing(i, _) => i
    case UpdateAt(i, _) => i
    case _ => 0
  }

  function Kind(op: Op): Call {
    if op.CreateAt? || op.CreateMissing? then Creating
    else if op.UpdatePrimary? || op.UpdateAt? then Updating
    else Reading
  }

  /** What one lease call does to its lease and to the client making it. */
  function Perform(slot: Slot, c: Client, n: nat, fault: Fault): (Slot, Option<nat>, Op)
    requires !c.op.Resting? && Target(c.op) < |c.cache|
  {
    var cached := c.cache[Target(c.op)];
    match c.op
    case GetPrimary =>
      var (cache, reply) := ReadSlot(slot, cached, fault);
      (slot, cache,
       if reply.Refused? then Resting(Failed(reply.error)) else GettingFrom(n, 1, reply.record, [reply.record]))
    case GetSecondary(i, primary, raw) =>
      var (cache, reply) := ReadSlot(slot, cached, fault);
      (slot, cache, AfterRead(c.id, n, i, primary, raw, reply))
    case CreateAt(i, rec) =>
      var w := CreateSlot(slot, rec, fault);
      (w.slot, w.cache,
       if w.error.Some? && w.error.value != AlreadyExists then Resting(Failed(w.error.value))
       else CreatingFrom(n, i + 1, rec))
    case UpdatePrimary(rec) =>
      var w := UpdateSlot(slot, cached, rec, fault);
      (w.slot, w.cache, if w.error.Some? then Resting(Failed(w.error.value)) else UpdatingFrom(n, 1, rec))
    case RefreshAt(i, rec) =>
      var (cache, reply) := ReadSlot(slot, cached, fault);
      (slot, cache, if reply == Refused(NotFound) then CreateMissing(i, rec) else UpdateAt(i, rec))
    case CreateMissing(i, rec) =>
      var w := CreateSlot(slot, rec, fault);
      (w.slot, w.cache, Resting(if w.error.Some? then Failed(w.error.value) else Done))
    case UpdateAt(i, rec) =>
      var w := UpdateSlot(slot, cached, rec, fault);
      (w.slot, w.cache, if w.error.Some? then Resting(Failed(w.error.value)) else UpdatingFrom(n, i + 1, rec))
  }

  /** One lease call of one client. */
  function Step(slots: seq<Slot>, c: Client, fault: Fault): (r: (seq<Slot>, Client))
    requires WellFormed(slots, c) && !c.op.Resting?
    ensures WellFormed(r.0, r.1) && |r.0| == |slots| && r.1.id == c.id
    ensures Kind(c.op) == Reading ==> r.0 == slots
  {
    var i := Target(c.op);
    var (slot, cache, op) := Perform(slots[i], c, |slots|, fault);
    (slots[i := slot], Client(c.id, c.cache[i := cache], op))
  }

  /** Bounds the lease calls a position still has to make. */
  function Remaining(n: nat, op: Op): int {
    match op
    case Resting(_) => 0
    case GetPrimary => 3 * n + 1
    case UpdatePrimary(_) => 3 * n + 1
    case CreateAt(i, _) => 3 * (n - i) + 1
    case GetSecondary(i, _, _) => 3 * (n - i) + 1
    case RefreshAt(i, _) => 3 * (n - i) + 3
    case CreateMissing(i, _) => 3 * (n - i) + 2
    case UpdateAt(i, _) => 3 * (n - i) + 2
  }

  /** Runs the current call of `c` to its end with no other client in between. */
  function Finish(slots: seq<Slot>, c: Client, faults: Faults): (r: (seq<Slot>, Client))
    requires WellFormed(slots, c)
    ensures WellFormed(r.0, r.1) && |r.0| == |slots| && r.1.id == c.id && r.1.op.Resting?
    decreases Remaining(|slots|, c.op)
  {
    if c.op.Resting? then (slots, c)
    else
      var (slots', c') := Step(slots, c, faults(Target(c.op), Kind(c.op)));
      Finish(slots', c', faults)
  }

  /** A call's outcome does not change when its next lease call is made first. */
  lemma FinishStep(slots: seq<Slot>, c: Client, faults: Faults, slots': seq<Slot>, c': Client)
    requires WellFormed(slots, c) && !c.op.Resting?
    requires Step(slots, c, faults(Target(c.op), Kind(c.op))) == (slots', c')
    ensures Finish(slots, c, faults) == Finish(slots', c', faults)
  {
  }

  /** A lease call touches the target lease and the caller's cached version of it only. */
  lemma StepFrame(slots: seq<Slot>, c: Client, fault: Fault, j: nat)
    requires WellFormed(slots, c) && !c.op.Resting? && j < |slots| && j != Target(c.op)
    ensures var (slots', c') := Step(slots, c, fault);
            slots'[j] == slots[j] && c'.cache[j] == c.cache[j]
  {
  }

  /** The leases of every cluster, shared by all clients. */
  class Clusters {
    var slots: seq<Slot>
  }

  /** One client's composite lock, with the loops of the source. */
  class MultiResourceLock {
    const id: string
    const clusters: Clusters
    var cache: seq<Option<nat>>

    predicate Valid()
      reads this, clusters
    {
      1 <= |clusters.slots| == |cache|
    }

    /** The client this object is, standing at `op`. */
    function At(op: Op): Client
      reads this
    {
      Client(id, cache, op)
    }

    constructor (id: string, clusters: Clusters)
      requires 1 <= |clusters.slots|
      ensures Valid() && this.id == id && this.clusters == clusters
      ensures cache == seq(|clusters.slots|, _ => None)
    {
      this.id := id;
      this.clusters := clusters;
      cache := seq(|clusters.slots|, _ => None);
    }

    method GetLease(i: nat, fault: Fault) returns (reply: Reply)
      requires Valid() && i < |cache|
      modifies this`cache
      ensures Valid() && |cache| == |old(cache)|
      ensures (cache[i], reply) == ReadSlot(clusters.slots[i], old(cache[i]), fault)
      ensures cache == old(cache)[i := cache[i]]
    {
      var (cached, answer) := ReadSlot(clusters.slots[i], cache[i], fault);
      cache, reply := cache[i := cached], answer;
    }

    method CreateLease(i: nat, rec: Record, fault: Fault) returns (err: Option<Error>)
      requires Valid() && i < |cache|
      modifies this`cache, clusters
      ensures Valid() && |cache| == |old(cache)|
      ensures Written(clusters.slots[i], cache[i], err) == CreateSlot(old(clusters.slots[i]), rec, fault)
      ensures cache == old(cache)[i := cache[i]] && clusters.slots == old(clusters.slots)[i := clusters.slots[i]]
    {
      var w := CreateSlot(clusters.slots[i], rec, fault);
      cache, clusters.slots, err := cache[i := w.cache], clusters.slots[i := w.slot], w.error;
    }

    method UpdateLease(i: nat, rec: Record, fault: Fault) returns (err: Option<Error>)
      requires Valid() && i < |cache|
      modifies this`cache, clusters
      ensures Valid() && |cache| == |old(cache)|
      ensures Written(clusters.slots[i], cache[i], err) == UpdateSlot(old(clusters.slots[i]), old(cache[i]), rec, fault)
      ensures cache == old(cache)[i := cache[i]] && clusters.slots == old(clusters.slots)[i := clusters.slots[i]]
    {
      var w := UpdateSlot(clusters.slots[i], cache[i], rec, fault);
      cache, clusters.slots, err := cache[i := w.cache], clusters.slots[i := w.slot], w.error;
    }

    method Get(faults: Faults) returns (answer: Answer)
      requires Valid()
      modifies this`cache
      ensures Valid()
      ensures (clusters.slots, At(Resting(answer))) == Finish(old(clusters.slots), old(At(GetPrimary)), faults)
    {
      ghost var goal := Finish(clusters.slots, At(GetPrimary), faults);
      ghost var c := At(GetPrimary);
      var first := GetLease(0, faults(0, Reading));
      assert Step(clusters.slots, c, faults(0, Reading)).1 ==
             At(if first.Refused? then Resting(Failed(first.error))
                else GettingFrom(|cache|, 1, first.record, [first.record]));
      if first.Refused? {
        return Failed(first.error);
      }
      var primary, raw := first.record, [first.record];
      for i := 1 to |cache|
        invariant Valid()
        invariant Finish(clusters.slots, At(GettingFrom(|cache|, i, primary, raw)), faults) == goal
      {
        c := At(GetSecondary(i, primary, raw));
        var reply := GetLease(i, faults(i, Reading));
        FinishStep(clusters.slots, c, faults, clusters.slots, At(AfterRead(id, |cache|, i, primary, raw, reply)));
        if reply.Refused? {
          if reply.error == NotFound && primary.holder != id {
            return Got(primary, raw);
          }
          return Failed(reply.error);
        }
        if primary.holder != reply.record.holder {
          primary := primary.(holder := UNKNOWN_LEADER);
          raw := [primary];
          assert raw + [reply.record] == [primary, reply.record];
        }
        raw := raw + [reply.record];
      }
      return Got(primary, raw);
    }

    method Create(rec: Record, faults: Faults) returns (answer: Answer)
      requires Valid()
      modifies this`cache, clusters
      ensures Valid()
      ensures (clusters.slots, At(Resting(answer))) == Finish(old(clusters.slots), old(At(CreateAt(0, rec))), faults)
    {
      ghost var goal := Finish(clusters.slots, At(CreateAt(0, rec)), faults);
      var err := CreateLease(0, rec, faults(0, Creating));
      if err.Some? && err.value != AlreadyExists {
        return Failed(err.value);
      }
      for i := 1 to |cache|
        invariant Valid()
        invariant Finish(clusters.slots, At(CreatingFrom(|cache|, i, rec)), faults) == goal
      {
        err := CreateLease(i, rec, faults(i, Creating));
        if err.Some? && err.value != AlreadyExists {
          return Failed(err.value);
        }
      }
      return Done;
    }

    /** The body of Update's loop: re-read secondary `i`, then create it or overwrite it. */
    method Overwrite(i: nat, rec: Record, faults: Faults) returns (stop: Option<Answer>)
      requires Valid() && 1 <= i < |cache|
      modifies this`cache, clusters
      ensures Valid() && |cache| == |old(cache)|
      ensures var op := if stop.Some? then Resting(stop.value) else UpdatingFrom(|cache|, i + 1, rec);
              Finish(clusters.slots, At(op), faults) == Finish(old(clusters.slots), old(At(RefreshAt(i, rec))), faults)
    {
      ghost var was, c := clusters.slots, At(RefreshAt(i, rec));
      var reply := GetLease(i, faults(i, Reading));
      FinishStep(was, c, faults, was,
                 At(if reply == Refused(NotFound) then CreateMissing(i, rec) else UpdateAt(i, rec)));
      if reply == Refused(NotFound) {
        c := At(CreateMissing(i, rec));
        var err := CreateLease(i, rec, faults(i, Creating));
        stop := Some(if err.Some? then Failed(err.value) else Done);
        FinishStep(was, c, faults, clusters.slots, At(Resting(stop.value)));
      } else {
        c := At(UpdateAt(i, rec));
        var err := UpdateLease(i, rec, faults(i, Updating));
        stop := if err.Some? then Some(Failed(err.value)) else None;
        FinishStep(was, c, faults, clusters.slots,
                   At(if err.Some? then Resting(Failed(err.value)) else UpdatingFrom(|cache|, i + 1, rec)));
      }
    }

    method Update(rec: Record, faults: Faults) returns (answer: Answer)
      requires Valid()
      modifies this`cache, clusters
      ensures Valid()
      ensures (clusters.slots, At(Resting(answer))) == Finish(old(clusters.slots), old(At(UpdatePrimary(rec))), faults)
    {
      ghost var goal := Finish(clusters.slots, At(UpdatePrimary(rec)), faults);
      ghost var was, c := clusters.slots, At(UpdatePrimary(rec));
      var err := UpdateLease(0, rec, faults(0, Updating));
      FinishStep(was, c, faults, clusters.slots,
                 At(if err.Some? then Resting(Failed(err.value)) else UpdatingFrom(|cache|, 1, rec)));
      if err.Some? {
        return Failed(err.value);
      }
      for i := 1 to |cache|
        invariant Valid()
        invariant Finish(clusters.slots, At(UpdatingFrom(|cache|, i, rec)), faults) == goal
      {
        var stop := Overwrite(i, rec, faults);
        if stop.Some? {
          return stop.value;
        }
      }
      return Done;
    }
  }

  datatype BuildError = TooFewConfigurations | CannotBuild(i: nat)

  /** Building the lock of one cluster; `buildable` says of each whether its configuration can be used. */
  method NewSingleResourceLock(i: nat, buildable: seq<bool>) returns (err: Option<BuildError>)
    requires i < |buildable|
    ensures err == if buildable[i] then None else Some(CannotBuild(i))
  {
    err := None;
    if !buildable[i] {
      err := Some(CannotBuild(i));
    }
  }

  /** A composite lock needs at least two configurations, each usable; otherwise there is an error and
      no lock.  The secondaries are built before the primary, and the first failure is reported. */
  method NewMultiResourceLock(id: string, clusters: Clusters, buildable: seq<bool>)
    returns (lock: MultiResourceLock?, err: Option<BuildError>)
    requires |buildable| == |clusters.slots|
    ensures lock == null <==> |buildable| < 2 || false in buildable
    ensures lock == null <==> err.Some?
    ensures lock != null ==> fresh(lock) && lock.Valid() && lock.id == id && lock.clusters == clusters
    ensures lock != null ==> lock.cache == seq(|clusters.slots|, _ => None)
    ensures err == Some(TooFewConfigurations) <==> |buildable| < 2
    ensures err.Some? && err.value.CannotBuild? ==>
              var i := err.value.i;
              && i < |buildable| && !buildable[i]
              && forall j :: 1 <= j < (if i == 0 then |buildable| else i) ==> buildable[j]
  {
    if |buildable| < 2 {
      return null, Some(TooFewConfigurations);
    }
    for i := 1 to |buildable|
      invariant forall j :: 1 <= j < i ==> buildable[j]
    {
      err := NewSingleResourceLock(i, buildable);
      if err.Some? {
        return null, err;
      }
    }
    err := NewSingleResourceLock(0, buildable);
    if err.Some? {
      return null, err;
    }
    lock := new MultiResourceLock(id, clusters);
  }
}
