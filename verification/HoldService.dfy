/** The imperative services of seat-inventory: seat locks, inventory rows, the availability cache and
    the hold service, over the shared Postgres tables and Redis keys.  Every method is proved equal to
    an operation of SeatStore. */
module HoldService {
  import opened Basics
  import opened SeatStore
  import ReadModel

  datatype HoldResult =
    | HoldPlaced(expiresAt: int)
    | AlreadyHeld(failedSeatIds: seq<Id>)
    | NotAvailable(seats: seq<SeatKey>)
    | NotFound(seat: Id)

  /** `failedSeatIds` lists, in request order, exactly the positions of `ids` that could not be locked;
      `at` says which positions these are. */
  ghost predicate Reports(locks: map<SeatKey, Lock>, e: Id, ids: seq<Id>, failedSeatIds: seq<Id>, at: seq<nat>) {
    && |at| == |failedSeatIds|
    && (forall n :: 0 <= n < |at| ==> at[n] < |ids| && failedSeatIds[n] == ids[at[n]])
    && (forall m, n :: 0 <= m < n < |at| ==> at[m] < at[n])
    && (forall i: nat :: i < |ids| ==> (i in at <==> Blocked(locks, e, ids, i)))
  }

  lemma BlockedInPrefix(locks: map<SeatKey, Lock>, e: Id, ids: seq<Id>, n: nat, i: nat)
    requires i < n <= |ids|
    ensures Blocked(locks, e, ids[..n], i) <==> Blocked(locks, e, ids, i)
  {
    assert ids[..n][..i] == ids[..i];
  }

  /** Position j of a longer prefix is blocked as it was in the shorter one; position i is the new one. */
  lemma BlockedNext(locks: map<SeatKey, Lock>, e: Id, ids: seq<Id>, i: nat, j: nat)
    requires j <= i < |ids|
    ensures j < i ==> (Blocked(locks, e, ids[..i + 1], j) <==> Blocked(locks, e, ids[..i], j))
    ensures j == i ==> (Blocked(locks, e, ids[..i + 1], j) <==> Blocked(locks, e, ids, i))
  {
    BlockedInPrefix(locks, e, ids, i + 1, j);
    if j < i {
      BlockedInPrefix(locks, e, ids, i, j);
    }
  }

  lemma PositionsSnoc(at: seq<nat>, i: nat, j: nat)
    requires forall n :: 0 <= n < |at| ==> at[n] < i
    ensures j in at + [i] <==> j in at || j == i
    ensures i !in at
  {
  }

  lemma ReportsSnoc(locks: map<SeatKey, Lock>, e: Id, ids: seq<Id>, i: nat, failed: seq<Id>, at: seq<nat>)
    requires i < |ids| && Reports(locks, e, ids[..i], failed, at)
    ensures if Blocked(locks, e, ids, i) then Reports(locks, e, ids[..i + 1], failed + [ids[i]], at + [i])
            else Reports(locks, e, ids[..i + 1], failed, at)
  {
    hide Blocked;
    var at' := if Blocked(locks, e, ids, i) then at + [i] else at;
    forall j: nat | j < i + 1 ensures j in at' <==> Blocked(locks, e, ids[..i + 1], j) {
      BlockedNext(locks, e, ids, i, j);
      PositionsSnoc(at, i, j);
    }
  }

  lemma {:induction false} NothingFailedIffLockable(locks: map<SeatKey, Lock>, e: Id, ids: seq<Id>, failed: seq<Id>,
                                                    at: seq<nat>)
    requires Reports(locks, e, ids, failed, at)
    ensures failed == [] <==> Lockable(locks, e, ids)
  {
    if failed != [] {
      assert at[0] in at;
      var i := at[0];
      if ids[i] in ids[..i] {
        var j :| 0 <= j < i && ids[..i][j] == ids[i];
        assert ids[j] == ids[i];
      }
    } else {
      forall a, b | 0 <= a < b < |ids| ensures ids[a] != ids[b] {
        assert !Blocked(locks, e, ids, b);
        assert ids[a] == ids[..b][a];
      }
      forall s | s in ids ensures SeatKey(e, s) !in locks {
        var i :| 0 <= i < |ids| && ids[i] == s;
        assert !Blocked(locks, e, ids, i);
      }
    }
  }

  lemma NoneDistinct()
    ensures Distinct<SeatKey>([])
  {
  }

  lemma OneMoreDistinct(ks: seq<SeatKey>, k: SeatKey)
    requires Distinct(ks) && k !in ks
    ensures Distinct(ks + [k])
  {
  }

  lemma LocksUndone(locks: map<SeatKey, Lock>, e: Id, ids: seq<Id>, u: Id, t: int)
    requires Lockable(locks, e, ids)
    ensures DropLocks(PutLocks(locks, Keys(e, ids), u, t), Keys(e, ids), u) == locks
  {
  }

  /** The Redis key of a seat lock. */
  function LockKeyName(k: SeatKey): string {
    "lock:event:" + k.event + ":seat:" + k.seat
  }

  lemma ColonAfterEvent(k: SeatKey)
    requires ':' !in k.event
    ensures var n := LockKeyName(k);
            && |n| == 17 + |k.event| + |k.seat| && n[11 + |k.event|] == ':'
            && (forall i :: 0 <= i < |k.event| ==> n[11 + i] == k.event[i] != ':')
            && n[17 + |k.event|..] == k.seat
  {
    var n := LockKeyName(k);
    forall i | 0 <= i < |k.event| ensures n[11 + i] == k.event[i] != ':' {
      assert k.event[i] in k.event;
    }
  }

  /** Keying the locks by event and seat, as this model does, is faithful for event ids without ':'. */
  lemma {:induction false} LockKeysAreDistinct(k: SeatKey, k': SeatKey)
    requires ':' !in k.event && ':' !in k'.event
    ensures LockKeyName(k) == LockKeyName(k') <==> k == k'
  {
    ColonAfterEvent(k);
    ColonAfterEvent(k');
    if LockKeyName(k) == LockKeyName(k') {
      assert |k.event| == |k'.event|;
      assert forall i :: 0 <= i < |k.event| ==> k.event[i] == LockKeyName(k)[11 + i];
      assert k.event == k'.event;
    }
  }

  /** The seat is the first of the requested ones that has no row. */
  ghost predicate FirstMissing(rows: map<SeatKey, Row>, e: Id, ids: seq<Id>, seat: Id) {
    exists i :: 0 <= i < |ids| && ids[i] == seat && SeatKey(e, seat) !in rows
                && forall j :: 0 <= j < i ==> SeatKey(e, ids[j]) in rows
  }

  /** The error of a failed hold names the seats at fault: all that are not AVAILABLE or, when there are none,
      the first that is not there. */
  ghost predicate Explains(r: HoldResult, rows: map<SeatKey, Row>, e: Id, ids: seq<Id>) {
    && (r.NotAvailable? ==> r.seats != [] &&
                            forall k :: k in r.seats <==> k in rows && k in Keys(e, ids) && rows[k].status != Available)
    && (r.NotFound? ==> FirstMissing(rows, e, ids, r.seat)
                        && forall k :: k in rows && k in Keys(e, ids) ==> rows[k].status == Available)
  }

  class SeatInventory {
    var now: int
    var rows: map<SeatKey, Row>
    var holds: seq<Hold>
    var locks: map<SeatKey, Lock>
    var avail: map<SeatKey, Status>
    var details: map<SeatKey, Detail>

    constructor ()
      ensures St() == Store(0, map[], [], map[], map[], map[])
    {
      now, rows, holds, locks, avail, details := 0, map[], [], map[], map[], map[];
    }

    function St(): Store
      reads this
    {
      Store(now, rows, holds, locks, avail, details)
    }

    // ----- SeatLockService

    /** SET key EX ttl NX for each seat, in order; the keys that were set and the seats that failed. */
    method SetKeys(e: Id, ids: seq<Id>, u: Id)
      returns (lockedKeys: seq<SeatKey>, failedSeatIds: seq<Id>, ghost failedAt: seq<nat>)
      modifies this`locks
      ensures forall k :: k in lockedKeys <==> k !in old(locks) && k in Keys(e, ids)
      ensures forall k :: k in locks <==> k in old(locks) || k in lockedKeys
      ensures forall k :: k in locks ==>
              locks[k] == if k in old(locks) then old(locks)[k] else Lock(u, now + LOCK_TTL_MS)
      ensures Reports(old(locks), e, ids, failedSeatIds, failedAt)
    {
      lockedKeys, failedSeatIds, failedAt := [], [], [];
      ghost var before := locks;
      for i := 0 to |ids|
        invariant forall k :: k in locks <==> k in before || k in lockedKeys
        invariant forall k :: k in locks ==> locks[k] == if k in before then before[k] else Lock(u, now + LOCK_TTL_MS)
        invariant forall k :: k in lockedKeys <==> k !in before && k in Keys(e, ids[..i])
        invariant Reports(before, e, ids[..i], failedSeatIds, failedAt)
      {
        var key := SeatKey(e, ids[i]);
        assert ids[..i + 1] == ids[..i] + [ids[i]];
        assert key in locks <==> Blocked(before, e, ids, i);
        ReportsSnoc(before, e, ids, i, failedSeatIds, failedAt);
        if key !in locks {
          locks := locks[key := Lock(u, now + LOCK_TTL_MS)];
          lockedKeys := lockedKeys + [key];
        } else {
          failedSeatIds := failedSeatIds + [ids[i]];
          failedAt := failedAt + [i];
        }
      }
      assert ids[..|ids|] == ids;
    }

    method DeleteKeys(keys: seq<SeatKey>)
      modifies this`locks
      ensures locks == map k | k in old(locks) && k !in keys :: old(locks)[k]
    {
      for n := 0 to |keys|
        invariant locks == map k | k in old(locks) && k !in keys[..n] :: old(locks)[k]
      {
        assert keys[..n + 1] == keys[..n] + [keys[n]];
        locks := locks - {keys[n]};
      }
      assert keys[..|keys|] == keys;
    }

    /** All or nothing: when some seat could not be locked, the keys that were set are deleted again
        and exactly the blocked positions are reported. */
    method LockSeats(e: Id, ids: seq<Id>, u: Id)
      returns (success: bool, failedSeatIds: seq<Id>, ghost failedAt: seq<nat>)
      modifies this`locks
      ensures success <==> Lockable(old(locks), e, ids)
      ensures success ==> failedSeatIds == [] && locks == PutLocks(old(locks), Keys(e, ids), u, now + LOCK_TTL_MS)
      ensures !success ==> locks == old(locks)
      ensures !success ==> Reports(old(locks), e, ids, failedSeatIds, failedAt)
    {
      ghost var before := locks;
      var lockedKeys: seq<SeatKey>;
      lockedKeys, failedSeatIds, failedAt := SetKeys(e, ids, u);
      NothingFailedIffLockable(before, e, ids, failedSeatIds, failedAt);
      if |failedSeatIds| > 0 {
        DeleteKeys(lockedKeys);
        assert locks == before;
        return false, failedSeatIds, failedAt;
      }
      assert locks == PutLocks(before, Keys(e, ids), u, now + LOCK_TTL_MS);
      return true, [], failedAt;
    }

    /** For each seat: GET the key, skip it when absent or someone else's, otherwise DEL it. */
    method ReleaseLocks(e: Id, ids: seq<Id>, u: Id) returns (released: nat)
      modifies this`locks
      ensures locks == DropLocks(old(locks), Keys(e, ids), u)
      ensures released == |old(locks)| - |locks|
    {
      released := 0;
      var i := 0;
      while i < |ids|
        invariant 0 <= i <= |ids|
        invariant locks == DropLocks(old(locks), Keys(e, ids[..i]), u)
        invariant released == |old(locks)| - |locks|
      {
        var key := SeatKey(e, ids[i]);
        assert ids[..i + 1] == ids[..i] + [ids[i]];
        if key in locks && locks[key].user == u {
          locks := locks - {key};
          released := released + 1;
        }
        i := i + 1;
      }
      assert ids[..i] == ids;
    }

    method VerifyHold(e: Id, ids: seq<Id>, u: Id) returns (verified: bool)
      ensures verified <==> SeatStore.VerifyHold(St(), e, ids, u)
    {
      var i := 0;
      while i < |ids|
        invariant 0 <= i <= |ids|
        invariant SeatStore.VerifyHold(St(), e, ids[..i], u)
      {
        var key := SeatKey(e, ids[i]);
        if key !in locks || locks[key].user != u {
          assert ids[i] in ids;
          return false;
        }
        assert ids[..i + 1] == ids[..i] + [ids[i]];
        i := i + 1;
      }
      assert ids[..i] == ids;
      return true;
    }

    // ----- InventoryService and AvailabilityReadService

    method FindBySeatIds(e: Id, ids: seq<Id>) returns (found: seq<SeatKey>)
      ensures Distinct(found)
      ensures forall k :: k in found <==> k in rows && k in Keys(e, ids)
    {
      found := [];
      for i := 0 to |ids|
        invariant Distinct(found)
        invariant forall k :: k in found <==> k in rows && k in Keys(e, ids[..i])
      {
        var key := SeatKey(e, ids[i]);
        assert ids[..i + 1] == ids[..i] + [ids[i]];
        if key in rows && key !in found {
          found := found + [key];
        }
      }
      assert ids[..|ids|] == ids;
    }

    /** The loop `for (const inv of inventories) inv.status = s` over the rows that were found. */
    method WithStatus(found: seq<SeatKey>, s: Status, ghost e: Id, ghost ids: seq<Id>) returns (r: map<SeatKey, Row>)
      requires forall k :: k in found <==> k in rows && k in Keys(e, ids)
      ensures r == Restatus(rows, Keys(e, ids), s)
    {
      r := rows;
      for i := 0 to |found|
        invariant r == map k | k in rows :: if k in found[..i] then rows[k].(status := s) else rows[k]
      {
        assert found[..i + 1] == found[..i] + [found[i]];
        r := r[found[i] := r[found[i]].(status := s)];
      }
      assert found[..|found|] == found;
    }

    method UpdateMultipleSeatsStatus(e: Id, ids: seq<Id>, s: Status)
      modifies this`avail
      ensures avail == PutAvail(old(avail), Keys(e, ids), s)
    {
      for i := 0 to |ids|
        invariant forall k :: k in avail <==> k in old(avail) || k in Keys(e, ids[..i])
        invariant forall k :: k in avail ==> avail[k] == if k in Keys(e, ids[..i]) then s else old(avail)[k]
      {
        assert ids[..i + 1] == ids[..i] + [ids[i]];
        avail := avail[SeatKey(e, ids[i]) := s];
      }
      assert ids[..|ids|] == ids;
      assert avail == PutAvail(old(avail), Keys(e, ids), s);
    }

    /** Does nothing for an event that has rows; throws, at the unique index, when a seat is announced
        twice. */
    method CreateFromEvent(e: Id, seats: seq<NewSeat>) returns (ok: bool)
      modifies this`rows
      ensures St() == SeatStore.CreateFromEvent(old(St()), e, seats)
      ensures ok <==> HasRows(old(rows), e) || Distinct(SeatIds(seats))
    {
      if HasRows(rows, e) {
        return true;
      }
      if !Distinct(SeatIds(seats)) {
        return false;
      }
      rows := rows + NewRows(e, seats);
      return true;
    }

    /** The rows of an event, in some order. */
    method FindByEventId(e: Id) returns (ks: seq<SeatKey>)
      ensures Distinct(ks)
      ensures forall k :: k in ks <==> k in rows && k.event == e
    {
      ks := [];
      var rest := set k | k in rows && k.event == e;
      while rest != {}
        invariant Distinct(ks)
        invariant forall k :: k in ks || k in rest <==> k in rows && k.event == e
        invariant forall k :: k in ks ==> k !in rest
        decreases rest
      {
        var k :| k in rest;
        ks := ks + [k];
        rest := rest - {k};
      }
    }

    /** DEL both hashes, then HSET each seat of the event into both. */
    method RebuildCache(e: Id)
      modifies this`avail, this`details
      ensures St() == SeatStore.RebuildCache(old(St()), e)
    {
      var seats := FindByEventId(e);
      if |seats| == 0 {
        return;
      }
      assert seats[0] in seats;
      FillStatuses(seats, e);
      FillDetails(seats, e);
    }

    method FillStatuses(seats: seq<SeatKey>, e: Id)
      requires forall k :: k in seats <==> k in rows && k.event == e
      modifies this`avail
      ensures avail == (map k | k in old(avail) && k.event != e :: old(avail)[k])
                       + (map k | k in rows && k.event == e :: rows[k].status)
    {
      var pipeline := map[];
      for i := 0 to |seats|
        invariant forall k :: k in pipeline <==> k in seats[..i]
        invariant forall k :: k in pipeline ==> k in rows && pipeline[k] == rows[k].status
      {
        assert seats[i] in seats;
        assert seats[..i + 1] == seats[..i] + [seats[i]];
        pipeline := pipeline[seats[i] := rows[seats[i]].status];
      }
      assert seats[..|seats|] == seats;
      assert pipeline == map k | k in rows && k.event == e :: rows[k].status;
      avail := (map k | k in avail && k.event != e :: avail[k]) + pipeline;
    }

    method FillDetails(seats: seq<SeatKey>, e: Id)
      requires forall k :: k in seats <==> k in rows && k.event == e
      modifies this`details
      ensures details == (map k | k in old(details) && k.event != e :: old(details)[k])
                         + (map k | k in rows && k.event == e :: rows[k].detail)
    {
      var pipeline := map[];
      for i := 0 to |seats|
        invariant forall k :: k in pipeline <==> k in seats[..i]
        invariant forall k :: k in pipeline ==> k in rows && pipeline[k] == rows[k].detail
      {
        assert seats[i] in seats;
        assert seats[..i + 1] == seats[..i] + [seats[i]];
        pipeline := pipeline[seats[i] := rows[seats[i]].detail];
      }
      assert seats[..|seats|] == seats;
      assert pipeline == map k | k in rows && k.event == e :: rows[k].detail;
      details := (map k | k in details && k.event != e :: details[k]) + pipeline;
    }

    /** HGETALL of both hashes, joined: every seat that has a cached status, in some order. */
    method ReadHashes(e: Id) returns (ghost ks: seq<SeatKey>, seats: seq<ReadModel.SeatView>)
      ensures ReadModel.Lists(ks, seats, ReadModel.CachedView(St(), e))
    {
      hide Distinct;
      ks, seats := [], [];
      NoneDistinct();
      ghost var view := ReadModel.CachedView(St(), e);
      var rest := set k | k in avail && k.event == e;
      while rest != {}
        invariant Distinct(ks) && |seats| == |ks|
        invariant rest <= view.Keys
        invariant forall k :: k in ks <==> k in view && k !in rest
        invariant forall i :: 0 <= i < |ks| ==> seats[i] == view[ks[i]]
        decreases rest
      {
        var k :| k in rest;
        OneMoreDistinct(ks, k);
        ks := ks + [k];
        seats := seats + [ReadModel.SeatView(if k in details then Some(details[k]) else None, avail[k])];
        rest := rest - {k};
      }
    }

    /** A missing status hash is rebuilt; whatever the hash then holds is returned, in some order. */
    method GetEventSeatsWithStatus(e: Id) returns (ghost ks: seq<SeatKey>, seats: seq<ReadModel.SeatView>)
      modifies this`avail, this`details
      ensures St() == ReadModel.Warm(old(St()), e)
      ensures ReadModel.Lists(ks, seats, ReadModel.GetEventSeats(old(St()), e))
    {
      if forall k :: k in avail ==> k.event != e {
        RebuildCache(e);
      }
      ks, seats := ReadHashes(e);
    }

    method GetEventAvailabilitySummary(e: Id)
      returns (r: ReadModel.Summary, ghost ks: seq<SeatKey>, ghost seats: seq<ReadModel.SeatView>)
      modifies this`avail, this`details
      ensures St() == ReadModel.Warm(old(St()), e)
      ensures ReadModel.Lists(ks, seats, ReadModel.GetEventSeats(old(St()), e))
      ensures ReadModel.Summarizes(r, seats)
    {
      var allSeats;
      ks, allSeats := GetEventSeatsWithStatus(e);
      seats := allSeats;
      r := ReadModel.Summarize(allSeats);
    }

    method ReleaseSoldSeats(e: Id, ids: seq<Id>, reach: Reach) returns (ok: bool)
      modifies this`rows, this`avail
      ensures St() == ReleaseSoldUpTo(old(St()), e, ids, reach) && ok == reach.Finished?
    {
      var found := FindBySeatIds(e, ids);
      var freed := WithStatus(found, Available, e, ids);
      if reach == RolledBack {
        return false;
      }
      rows := freed;
      if reach != Finished {
        return false;
      }
      UpdateMultipleSeatsStatus(e, ids, Available);
      return true;
    }

    // ----- HoldService

    /** The loop that closes this user's open holds on the given seats. */
    method CloseOpenHolds(e: Id, ids: seq<Id>, u: Id, reason: Reason) returns (hs: seq<Hold>)
      ensures hs == CloseHolds(holds, Keys(e, ids), u, reason)
    {
      hs := holds;
      var i := 0;
      while i < |holds|
        invariant 0 <= i <= |holds| == |hs|
        invariant forall j :: 0 <= j < i ==> hs[j] == CloseHold(holds[j], Keys(e, ids), u, reason)
        invariant forall j :: i <= j < |holds| ==> hs[j] == holds[j]
      {
        var h := hs[i];
        if h.released.None? && h.user == u && h.key.event == e {
          if h.key.seat in ids {
            hs := hs[i := h.(released := Some(reason))];
          }
        }
        i := i + 1;
      }
    }

    method UnavailableAmong(found: seq<SeatKey>) returns (unavailable: seq<SeatKey>)
      requires forall k :: k in found ==> k in rows
      ensures forall k :: k in unavailable <==> k in found && rows[k].status != Available
    {
      unavailable := [];
      for i := 0 to |found|
        invariant forall k :: k in unavailable <==> k in found[..i] && rows[k].status != Available
      {
        assert found[..i + 1] == found[..i] + [found[i]];
        if rows[found[i]].status != Available {
          unavailable := unavailable + [found[i]];
        }
      }
      assert found[..|found|] == found;
    }

    /** One new hold row per requested seat, or the first seat that has no inventory row. */
    method CreateHolds(e: Id, ids: seq<Id>, u: Id, expiresAt: int, found: seq<SeatKey>)
      returns (missing: Option<Id>, created: seq<Hold>)
      requires forall k :: k in found <==> k in rows && k in Keys(e, ids)
      ensures missing.Some? ==> FirstMissing(rows, e, ids, missing.value)
      ensures missing.None? ==> created == NewHolds(e, ids, u, expiresAt)
      ensures missing.None? ==> forall s :: s in ids ==> SeatKey(e, s) in rows
    {
      created := [];
      for i := 0 to |ids|
        invariant created == NewHolds(e, ids[..i], u, expiresAt)
        invariant forall j :: 0 <= j < i ==> SeatKey(e, ids[j]) in rows
      {
        var key := SeatKey(e, ids[i]);
        if key !in found {
          return Some(ids[i]), [];
        }
        assert ids[..i + 1] == ids[..i] + [ids[i]];
        created := created + [Hold(key, u, expiresAt, None)];
      }
      assert ids[..|ids|] == ids;
      missing := None;
    }

    /** The transaction of `holdSeats`, run while the seats are locked: check the rows, write rows and
        hold rows, commit, then the cache.  When it throws, nothing has been committed. */
    method HoldLocked(e: Id, ids: seq<Id>, u: Id, elapsed: nat) returns (r: HoldResult)
      modifies this`rows, this`holds, this`avail
      ensures r.HoldPlaced? <==> AllAvailable(old(rows), Keys(e, ids))
      ensures r.HoldPlaced? ==> r.expiresAt == now + elapsed + HOLD_DURATION_MS
      ensures r.HoldPlaced? ==> rows == Restatus(old(rows), Keys(e, ids), Held)
      ensures r.HoldPlaced? ==> holds == old(holds) + NewHolds(e, ids, u, r.expiresAt)
      ensures r.HoldPlaced? ==> avail == PutAvail(old(avail), Keys(e, ids), Held)
      ensures !r.HoldPlaced? ==> rows == old(rows) && holds == old(holds) && avail == old(avail)
      ensures !r.AlreadyHeld?
      ensures Explains(r, old(rows), e, ids)
    {
      var inventories := FindBySeatIds(e, ids);
      var unavailable := UnavailableAmong(inventories);
      if |unavailable| > 0 {
        assert unavailable[0] in unavailable;
        return NotAvailable(unavailable);
      }
      var heldRows := WithStatus(inventories, Held, e, ids);
      var expiresAt := now + elapsed + HOLD_DURATION_MS;
      var missing, newHolds := CreateHolds(e, ids, u, expiresAt, inventories);
      if missing.Some? {
        return NotFound(missing.value);
      }
      rows, holds := heldRows, holds + newHolds;
      UpdateMultipleSeatsStatus(e, ids, Held);
      return HoldPlaced(expiresAt);
    }

    /** The catch of `holdSeats`: the locks that were taken are gone again. */
    method Unlock(e: Id, ids: seq<Id>, u: Id, ghost before: map<SeatKey, Lock>)
      requires Lockable(before, e, ids) && locks == PutLocks(before, Keys(e, ids), u, now + LOCK_TTL_MS)
      modifies this`locks
      ensures locks == before
    {
      hide PutLocks, DropLocks, Lockable;
      var _ := ReleaseLocks(e, ids, u);
      LocksUndone(before, e, ids, u, now + LOCK_TTL_MS);
    }

    /** The try/catch of `holdSeats`: a transaction that throws gives the locks back. */
    method HoldOrUnlock(e: Id, ids: seq<Id>, u: Id, elapsed: nat, ghost before: Store) returns (r: HoldResult)
      requires Lockable(before.locks, e, ids)
      requires now == before.now && rows == before.rows && holds == before.holds
      requires avail == before.avail && details == before.details
      requires locks == PutLocks(before.locks, Keys(e, ids), u, now + LOCK_TTL_MS)
      modifies this
      ensures r.HoldPlaced? ==> St() == AfterHold(before, e, ids, u, elapsed)
      ensures !r.HoldPlaced? ==> St() == before
      ensures r.HoldPlaced? <==> AllAvailable(before.rows, Keys(e, ids))
      ensures r.HoldPlaced? ==> r.expiresAt == now + elapsed + HOLD_DURATION_MS
      ensures !r.AlreadyHeld?
      ensures Explains(r, before.rows, e, ids)
    {
      r := HoldLocked(e, ids, u, elapsed);
      if !r.HoldPlaced? {
        Unlock(e, ids, u, before.locks);
      }
    }

    /** Lock, run the transaction, and give the locks back if it failed. */
    method HoldSeats(e: Id, ids: seq<Id>, u: Id, elapsed: nat) returns (r: HoldResult)
      modifies this
      ensures St() == SeatStore.HoldSeats(old(St()), e, ids, u, elapsed)
      ensures r.HoldPlaced? <==> CanHold(old(St()), e, ids)
      ensures r.HoldPlaced? ==> r.expiresAt == now + elapsed + HOLD_DURATION_MS
      ensures r.AlreadyHeld? <==> !Lockable(old(locks), e, ids)
      ensures r.AlreadyHeld? ==> exists at :: Reports(old(locks), e, ids, r.failedSeatIds, at)
      ensures Explains(r, old(rows), e, ids)
    {
      ghost var before := St();
      var ok, failed, at := LockSeats(e, ids, u);
      if !ok {
        return AlreadyHeld(failed);
      }
      r := HoldOrUnlock(e, ids, u, elapsed, before);
    }

    method ReleaseSeats(e: Id, ids: seq<Id>, u: Id, reason: Reason, reach: Reach) returns (ok: bool)
      modifies this
      ensures St() == ReleaseUpTo(old(St()), e, ids, u, reason, reach) && ok == reach.Finished?
    {
      var closed := CloseOpenHolds(e, ids, u, reason);
      var inventories := FindBySeatIds(e, ids);
      var freed := WithStatus(inventories, Available, e, ids);
      if reach == RolledBack {
        return false;
      }
      rows, holds := freed, closed;
      if reach == Committed {
        return false;
      }
      var _ := ReleaseLocks(e, ids, u);
      if reach == Unlocked {
        return false;
      }
      UpdateMultipleSeatsStatus(e, ids, Available);
      return true;
    }

    method MarkAsSold(e: Id, ids: seq<Id>, u: Id)
      modifies this
      ensures St() == SeatStore.MarkAsSold(old(St()), e, ids, u)
    {
      var inventories := FindBySeatIds(e, ids);
      var sold := WithStatus(inventories, Sold, e, ids);
      var closed := CloseOpenHolds(e, ids, u, PaymentSuccess);
      rows, holds := sold, closed;
      var _ := ReleaseLocks(e, ids, u);
      UpdateMultipleSeatsStatus(e, ids, Sold);
    }
  }
}
