/** The byte-budget allocator of a workspace: reservations that grow, shrink, resize, are released or kept. */
module Workspace {
  import opened Common

  /** Go's int64; arithmetic outside the range is refused by the verifier, so nothing here overflows. */
  newtype int64 = x: int | -0x8000_0000_0000_0000 <= x < 0x8000_0000_0000_0000

  const MAX_INT64: int64 := 0x7FFF_FFFF_FFFF_FFFF

  // ----- The ledger: what every reservation ever made still accounts for --------------------------

  datatype Slot = Live(bytes: int) | Released | Retained(bytes: int)

  function Size(s: Slot): int {
    if s.Released? then 0 else s.bytes
  }

  function Total(ledger: seq<Slot>): int {
    if ledger == [] then 0 else Total(ledger[..|ledger| - 1]) + Size(ledger[|ledger| - 1])
  }

  function LiveCount(ledger: seq<Slot>): nat {
    if ledger == [] then 0 else LiveCount(ledger[..|ledger| - 1]) + (if ledger[|ledger| - 1].Live? then 1 else 0)
  }

  lemma Appended(ledger: seq<Slot>, s: Slot)
    ensures Total(ledger + [s]) == Total(ledger) + Size(s)
    ensures LiveCount(ledger + [s]) == LiveCount(ledger) + (if s.Live? then 1 else 0)
  {
    assert (ledger + [s])[..|ledger|] == ledger;
  }

  /** Changing one slot changes the total and the count by that slot only. */
  lemma {:induction false} Changed(ledger: seq<Slot>, i: nat, s: Slot)
    requires i < |ledger|
    ensures Total(ledger[i := s]) == Total(ledger) - Size(ledger[i]) + Size(s)
    ensures LiveCount(ledger[i := s]) == LiveCount(ledger) - (if ledger[i].Live? then 1 else 0) + (if s.Live? then 1 else 0)
    decreases |ledger|
  {
    var n := |ledger| - 1;
    if i == n {
      assert ledger[i := s][..n] == ledger[..n];
    } else {
      Changed(ledger[..n], i, s);
      assert ledger[i := s][..n] == ledger[..n][i := s];
    }
  }

  predicate NonNegative(ledger: seq<Slot>) {
    forall i | 0 <= i < |ledger| :: Size(ledger[i]) >= 0
  }

  /** A slot accounts for no more than the total, and a live slot is counted. */
  lemma {:induction false} SlotWithinTotal(ledger: seq<Slot>, i: nat)
    requires i < |ledger| && NonNegative(ledger)
    ensures 0 <= Size(ledger[i]) <= Total(ledger)
    ensures ledger[i].Live? ==> LiveCount(ledger) >= 1
    decreases |ledger|
  {
    TotalIsNonNegative(ledger[..|ledger| - 1]);
    if i < |ledger| - 1 {
      SlotWithinTotal(ledger[..|ledger| - 1], i);
    }
  }

  lemma {:induction false} TotalIsNonNegative(ledger: seq<Slot>)
    requires NonNegative(ledger)
    ensures Total(ledger) >= 0
  {
    if ledger != [] {
      TotalIsNonNegative(ledger[..|ledger| - 1]);
    }
  }

  lemma {:induction false} NoLiveSlot(ledger: seq<Slot>, i: nat)
    requires i < |ledger| && LiveCount(ledger) == 0
    ensures !ledger[i].Live?
    decreases |ledger|
  {
    if i < |ledger| - 1 {
      NoLiveSlot(ledger[..|ledger| - 1], i);
    }
  }

  function Max(a: int64, b: int64): int64 { if a < b then b else a }

  function Min(a: int64, b: int64): int64 { if a < b then a else b }

  // ----- Workspace and reservations ---------------------------------------------------------------

  class Reservation {
    const workspace: Workspace
    ghost const slot: nat
    var bytes: int64
    var released: bool

    constructor (workspace: Workspace, bytes: int64, ghost slot: nat)
      ensures this.workspace == workspace && this.bytes == bytes && !released && this.slot == slot
    {
      this.workspace, this.bytes, this.slot := workspace, bytes, slot;
      released := false;
    }

    ghost predicate Matches(s: Slot)
      reads this
    {
      if released then !s.Live? else s == Live(bytes as int)
    }

    /** The reservation belongs to its workspace. */
    ghost predicate Valid()
      reads this, workspace, workspace.leases
    {
      workspace.Valid() && slot < |workspace.leases| && workspace.leases[slot] == this
    }

    method Grow(more: int64, available: Option<int64>) returns (ok: bool)
      requires Valid()
      modifies this, workspace
      ensures Valid() && workspace.Unmoved(old(workspace.leases), old(workspace.budget), old(workspace.minimumFree))
      ensures ok <==> more == 0 || (more > 0 && !old(released) && !old(workspace.closed)
                                    && old(workspace.reserved) as int + more as int <= workspace.budget as int
                                    && workspace.Fits(more, available))
      ensures released == old(released) && workspace.closed == old(workspace.closed)
      ensures workspace.ledger == if ok && more > 0 then old(workspace.ledger)[slot := Live(old(bytes) as int + more as int)] else old(workspace.ledger)
    {
      if more < 0 {
        return false;
      }
      if more == 0 {
        return true;
      }
      if released || workspace.closed {
        return false;
      }
      if more > MAX_INT64 - workspace.reserved || workspace.reserved + more > workspace.budget {
        return false;
      }
      var enough := workspace.Enough(more, available);
      if !enough {
        return false;
      }
      Charge(more);
      ok := true;
    }

    /** Charges more bytes that are known to fit. */
    method Charge(more: int64)
      requires Valid() && more > 0 && !released && workspace.reserved as int + more as int <= workspace.budget as int
      modifies this, workspace
      ensures Valid() && workspace.Unmoved(old(workspace.leases), old(workspace.budget), old(workspace.minimumFree))
      ensures !released && workspace.closed == old(workspace.closed)
      ensures workspace.ledger == old(workspace.ledger)[slot := Live(old(bytes) as int + more as int)]
    {
      Changed(workspace.ledger, slot, Live(bytes as int + more as int));
      SlotWithinTotal(workspace.ledger, slot);
      workspace.reserved := workspace.reserved + more;
      bytes := bytes + more;
      workspace.ledger := workspace.ledger[slot := Live(bytes as int)];
    }

    method Resize(size: int64) returns (ok: bool)
      requires Valid()
      modifies this, workspace
      ensures Valid() && workspace.Unmoved(old(workspace.leases), old(workspace.budget), old(workspace.minimumFree))
      ensures ok <==> 0 <= size <= old(bytes) && !old(released) && !old(workspace.closed)
      ensures workspace.active == old(workspace.active)
      ensures workspace.reserved as int == old(workspace.reserved) as int - (old(bytes) as int - bytes as int)
      ensures released == old(released) && workspace.closed == old(workspace.closed)
      ensures workspace.ledger == if ok then old(workspace.ledger)[slot := Live(size as int)] else old(workspace.ledger)
    {
      if size < 0 || released || workspace.closed || size > bytes {
        return false;
      }
      Changed(workspace.ledger, slot, Live(size as int));
      SlotWithinTotal(workspace.ledger, slot);
      ghost var after := workspace.ledger[slot := Live(size as int)];
      TotalIsNonNegative(after);
      workspace.reserved := workspace.reserved - (bytes - size);
      bytes := size;
      workspace.ledger := after;
      ok := true;
    }

    method Shrink(less: int64)
      requires Valid()
      modifies this, workspace
      ensures Valid() && workspace.Unmoved(old(workspace.leases), old(workspace.budget), old(workspace.minimumFree))
      ensures released == old(released) && workspace.closed == old(workspace.closed)
      ensures workspace.ledger ==
              if less <= 0 || released then old(workspace.ledger)
              else old(workspace.ledger)[slot := Live(if less <= old(bytes) then old(bytes) as int - less as int else 0)]
    {
      if less <= 0 || released {
        return;
      }
      SlotWithinTotal(workspace.ledger, slot);
      var taken := Min(less, bytes);
      var left := bytes - taken;
      Changed(workspace.ledger, slot, Live(left as int));
      ghost var after := workspace.ledger[slot := Live(left as int)];
      TotalIsNonNegative(after);
      bytes := left;
      workspace.reserved := workspace.reserved - taken;
      workspace.ledger := after;
    }

    /** Gives the bytes back. The lower bounds at zero never change a value. */
    method Release()
      requires Valid()
      modifies this, workspace
      ensures Valid() && released && workspace.Unmoved(old(workspace.leases), old(workspace.budget), old(workspace.minimumFree))
      ensures workspace.closed == old(workspace.closed)
      ensures workspace.ledger == if old(released) then old(workspace.ledger) else old(workspace.ledger)[slot := Released]
      ensures workspace.reserved as int == old(workspace.reserved) as int - (if old(released) then 0 else old(bytes) as int)
      ensures workspace.active == old(workspace.active) - (if old(released) then 0 else 1)
    {
      if released {
        return;
      }
      SlotWithinTotal(workspace.ledger, slot);
      Changed(workspace.ledger, slot, Released);
      ghost var after := workspace.ledger[slot := Released];
      TotalIsNonNegative(after);
      released := true;
      workspace.reserved := Max(0, workspace.reserved - bytes);
      workspace.active := if workspace.active - 1 < 0 then 0 else workspace.active - 1;
      workspace.ledger := after;
    }

    /** Ends the reservation but keeps its bytes charged until the workspace is closed. */
    method Retain()
      requires Valid()
      modifies this, workspace
      ensures Valid() && released && workspace.Unmoved(old(workspace.leases), old(workspace.budget), old(workspace.minimumFree))
      ensures workspace.closed == old(workspace.closed)
      ensures workspace.ledger == if old(released) then old(workspace.ledger) else old(workspace.ledger)[slot := Retained(old(bytes) as int)]
      ensures workspace.reserved == old(workspace.reserved)
      ensures workspace.active == old(workspace.active) - (if old(released) then 0 else 1)
    {
      if released {
        return;
      }
      SlotWithinTotal(workspace.ledger, slot);
      Changed(workspace.ledger, slot, Retained(bytes as int));
      released := true;
      workspace.active := if workspace.active - 1 < 0 then 0 else workspace.active - 1;
      workspace.ledger := workspace.ledger[slot := Retained(bytes as int)];
    }
  }

  class Workspace {
    var budget: int64
    var minimumFree: int64
    var reserved: int64
    var active: int
    var closed: bool
    ghost var leases: seq<Reservation>
    ghost var ledger: seq<Slot>

    /** Reserved bytes are exactly the live and the retained ones, within the budget; active counts the
        live reservations; a closed workspace has none. */
    ghost predicate Valid()
      reads this, leases
    {
      && budget > 0 && minimumFree >= 0
      && |leases| == |ledger| && NonNegative(ledger)
      && (forall i | 0 <= i < |leases| :: leases[i].workspace == this && leases[i].slot == i && leases[i].Matches(ledger[i]))
      && reserved as int == Total(ledger) && 0 <= reserved <= budget
      && active == LiveCount(ledger)
      && (closed ==> active == 0)
    }

    ghost predicate Unmoved(leases: seq<Reservation>, budget: int64, minimumFree: int64)
      reads this
    {
      this.leases == leases && this.budget == budget && this.minimumFree == minimumFree
    }

    constructor (budget: int64, minimumFree: int64)
      requires budget > 0 && minimumFree >= 0
      ensures Valid() && ledger == [] && !closed && this.budget == budget && this.minimumFree == minimumFree
    {
      this.budget, this.minimumFree := budget, minimumFree;
      reserved, active, closed, leases, ledger := 0, 0, false, [], [];
    }

    /** The free space leaves the minimum free after taking `bytes`. */
    predicate Fits(bytes: int64, available: Option<int64>)
      reads this
    {
      available.Some? && available.value as int >= bytes as int + minimumFree as int
    }

    method Enough(bytes: int64, available: Option<int64>) returns (ok: bool)
      requires bytes >= 0 && minimumFree >= 0
      ensures ok <==> Fits(bytes, available)
    {
      if available.None? {
        return false;
      }
      ok := !(available.value < 0 || bytes > MAX_INT64 - minimumFree || available.value < bytes + minimumFree);
    }

    /** Opens a reservation; `available` is the free space, or none when it cannot be read or the call is cancelled. */
    method Reserve(bytes: int64, available: Option<int64>) returns (lease: Option<Reservation>)
      requires Valid()
      modifies this
      ensures Valid() && budget == old(budget) && minimumFree == old(minimumFree) && closed == old(closed)
      ensures lease.Some? <==> bytes >= 0 && !closed && old(reserved) as int + bytes as int <= budget as int && Fits(bytes, available)
      ensures lease.None? ==> ledger == old(ledger) && leases == old(leases)
      ensures lease.Some? ==>
                && fresh(lease.value) && lease.value.workspace == this && lease.value.Valid()
                && lease.value.bytes == bytes && !lease.value.released
                && leases == old(leases) + [lease.value] && ledger == old(ledger) + [Live(bytes as int)]
    {
      if bytes < 0 || closed {
        return None;
      }
      if bytes > MAX_INT64 - reserved || reserved + bytes > budget {
        return None;
      }
      var enough := Enough(bytes, available);
      if !enough {
        return None;
      }
      var r := Open(bytes);
      lease := Some(r);
    }

    method ReserveRemaining(available: Option<int64>) returns (lease: Option<Reservation>)
      requires Valid()
      modifies this
      ensures Valid() && budget == old(budget) && minimumFree == old(minimumFree) && closed == old(closed)
      ensures lease.Some? <==> !closed && Fits(old(budget) - old(reserved), available)
      ensures lease.None? ==> ledger == old(ledger) && leases == old(leases)
      ensures lease.Some? ==>
                && fresh(lease.value) && lease.value.workspace == this && lease.value.Valid()
                && lease.value.bytes == old(budget) - old(reserved) && !lease.value.released && reserved == budget && active == old(active) + 1
                && leases == old(leases) + [lease.value] && ledger == old(ledger) + [Live(lease.value.bytes as int)]
    {
      if closed {
        return None;
      }
      var enough := Enough(budget - reserved, available);
      if !enough {
        return None;
      }
      var r := Open(budget - reserved);
      lease := Some(r);
    }

    method Open(bytes: int64) returns (lease: Reservation)
      requires Valid() && !closed && bytes >= 0 && reserved as int + bytes as int <= budget as int
      modifies this
      ensures Valid() && budget == old(budget) && minimumFree == old(minimumFree) && closed == old(closed)
      ensures fresh(lease) && lease.workspace == this && lease.Valid() && lease.bytes == bytes && !lease.released
      ensures leases == old(leases) + [lease] && ledger == old(ledger) + [Live(bytes as int)]
      ensures reserved == old(reserved) + bytes && active == old(active) + 1
    {
      lease := new Reservation(this, bytes, |leases|);
      Appended(ledger, Live(bytes as int));
      reserved := reserved + bytes;
      active := active + 1;
      leases := leases + [lease];
      ledger := ledger + [Live(bytes as int)];
    }

    /** Closing is refused while any reservation is live. */
    method Close(removed: bool) returns (ok: bool)
      requires Valid()
      modifies this
      ensures Valid() && Unmoved(old(leases), old(budget), old(minimumFree)) && ledger == old(ledger) && reserved == old(reserved)
      ensures ok <==> old(closed) || (removed && forall i | 0 <= i < |ledger| :: !ledger[i].Live?)
      ensures closed <==> ok
    {
      if closed {
        forall i | 0 <= i < |ledger| ensures !ledger[i].Live? {
          NoLiveSlot(ledger, i);
        }
        return true;
      }
      if active != 0 {
        SomeLiveSlot(ledger);
        return false;
      }
      forall i | 0 <= i < |ledger| ensures !ledger[i].Live? {
        NoLiveSlot(ledger, i);
      }
      if !removed {
        return false;
      }
      closed := true;
      ok := true;
    }
  }

  lemma {:induction false} SomeLiveSlot(ledger: seq<Slot>)
    requires LiveCount(ledger) > 0
    ensures exists i :: 0 <= i < |ledger| && ledger[i].Live?
  {
    var n := |ledger| - 1;
    if ledger[n].Live? {
    } else {
      SomeLiveSlot(ledger[..n]);
      var i :| 0 <= i < n && ledger[..n][i].Live?;
      assert ledger[i].Live?;
    }
  }

  /** A file whose bytes are charged as they are written. */
  class OwnedFile {
    const workspace: Workspace
    const lease: Reservation
    var closed: bool

    ghost predicate Valid()
      reads this, lease, workspace, workspace.leases
    {
      lease.workspace == workspace && lease.Valid() && closed == lease.released
    }

    constructor (lease: Reservation)
      requires lease.Valid() && !lease.released
      ensures Valid() && !closed && this.lease == lease && this.workspace == lease.workspace
    {
      this.workspace, this.lease, closed := lease.workspace, lease, false;
    }

    /** Writes `size` bytes, of which the file system accepts `accepted`, with or without an error. A write that is not
        complete or reports an error gives everything back that was ever charged for the file. */
    method Write(size: int64, available: Option<int64>, accepted: int64, error: bool) returns (written: int64, ok: bool)
      requires Valid() && 0 <= accepted <= size
      modifies this, lease, workspace
      ensures Valid() && workspace.Unmoved(old(workspace.leases), old(workspace.budget), old(workspace.minimumFree))
      ensures ok ==> written == size && !closed
      ensures ok <==> !old(closed) && accepted == size && !error
                       && (size == 0 || (!old(workspace.closed) && workspace.Fits(size, available)
                                         && old(workspace.reserved) as int + size as int <= workspace.budget as int))
      ensures closed == !ok
      ensures workspace.ledger ==
              if old(closed) then old(workspace.ledger)
              else old(workspace.ledger)[lease.slot := if ok then Live(old(lease.bytes) as int + size as int) else Released]
    {
      if closed {
        return 0, false;
      }
      var grown := lease.Grow(size, available);
      if !grown {
        Abort();
        return 0, false;
      }
      if error || accepted != size {
        lease.Shrink(size - accepted);
        Abort();
        return accepted, false;
      }
      return size, true;
    }

    /** Closing keeps the bytes charged; a failing close gives them back. */
    method Close(flushed: bool) returns (ok: bool)
      requires Valid()
      modifies this, lease, workspace
      ensures Valid() && closed && workspace.Unmoved(old(workspace.leases), old(workspace.budget), old(workspace.minimumFree))
      ensures ok <==> old(closed) || flushed
      ensures workspace.ledger ==
              if old(closed) then old(workspace.ledger)
              else old(workspace.ledger)[lease.slot := if ok then Retained(old(lease.bytes) as int) else Released]
    {
      if closed {
        return true;
      }
      closed := true;
      if !flushed {
        lease.Release();
        return false;
      }
      lease.Retain();
      ok := true;
    }

    method Abort()
      requires Valid()
      modifies this, lease, workspace
      ensures Valid() && closed && workspace.Unmoved(old(workspace.leases), old(workspace.budget), old(workspace.minimumFree))
      ensures workspace.closed == old(workspace.closed)
      ensures workspace.ledger == if old(closed) then old(workspace.ledger) else old(workspace.ledger)[lease.slot := Released]
    {
      if closed {
        return;
      }
      closed := true;
      lease.Release();
    }
  }
}
