/** What the model assumes of one Kubernetes lease and of client-go's lock over it.

    A lease lives in one cluster.  Each lock client keeps the version of the lease it last
    obtained; reading refreshes it, and a write is accepted only against that version. */
module Leases {
  import opened Wrappers

  /** The holder identity that marks a split observation. */
  const UNKNOWN_LEADER := "leaderelection.k8s.io/unknown"

  /** A leader election record; `details` stands for every field but the holder. */
  datatype Record = Record(holder: string, details: int)

  /** One lease in one cluster, with its resource version. */
  datatype Slot = Absent | Present(version: nat, record: Record)

  /** What the network does to one call: nothing, loses the request, or loses the reply. */
  datatype Fault = Clean | Lost | Unacknowledged

  datatype Error = NotFound | AlreadyExists | Conflict | NotInitialized | Unreachable

  datatype Reply = Found(record: Record) | Refused(error: Error)

  /** The lease, the caller's cached version and the caller's error after a write. */
  datatype Written = Written(slot: Slot, cache: Option<nat>, error: Option<Error>)

  function ReadSlot(slot: Slot, cache: Option<nat>, fault: Fault): (r: (Option<nat>, Reply))
    ensures r.1.Found? ==> r.0.Some? && slot == Present(r.0.value, r.1.record)
  {
    if fault != Clean then (cache, Refused(Unreachable))
    else if slot.Absent? then (cache, Refused(NotFound))
    else (Some(slot.version), Found(slot.record))
  }

  /** Fails when the lease exists.  A failed creation leaves no usable cached version. */
  function CreateSlot(slot: Slot, rec: Record, fault: Fault): (w: Written)
    ensures w.slot == slot || (slot.Absent? && w.slot == Present(0, rec))
    ensures w.error.None? ==> slot.Absent? && w.slot.Present? && w.cache == Some(0)
  {
    if fault.Lost? then Written(slot, None, Some(Unreachable))
    else if slot.Present? then Written(slot, None, Some(if fault.Clean? then AlreadyExists else Unreachable))
    else if fault.Clean? then Written(Present(0, rec), Some(0), None)
    else Written(Present(0, rec), None, Some(Unreachable))
  }

  /** Compare-and-swap on the cached version. */
  function UpdateSlot(slot: Slot, cache: Option<nat>, rec: Record, fault: Fault): (w: Written)
    ensures w.slot == slot || (slot.Present? && cache == Some(slot.version) && w.slot == Present(slot.version + 1, rec))
    ensures w.error.None? ==> w.slot != slot && w.cache == Some(w.slot.version)
    ensures w.error.Some? ==> w.cache == cache
  {
    if cache.None? then Written(slot, cache, Some(NotInitialized))
    else if fault.Lost? then Written(slot, cache, Some(Unreachable))
    else if slot.Absent? || slot.version != cache.value then
      Written(slot, cache,
              Some(if fault.Unacknowledged? then Unreachable else if slot.Absent? then NotFound else Conflict))
    else if fault.Clean? then Written(Present(slot.version + 1, rec), Some(slot.version + 1), None)
    else Written(Present(slot.version + 1, rec), cache, Some(Unreachable))
  }
}
