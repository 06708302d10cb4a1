/** What every operation of the seat-inventory service keeps: seats, hold rows and locks agree, with
    time.  For the three operations that overwrite a status without looking at it, exactly when. */
module SeatInvariant {
  import opened Basics
  import opened SeatStore

  predicate Open(h: Hold, k: SeatKey) {
    h.released.None? && h.key == k
  }

  ghost predicate HasOpenHold(holds: seq<Hold>, k: SeatKey) {
    exists i :: 0 <= i < |holds| && Open(holds[i], k)
  }

  /** User u has an open hold on k that lasts at least until t. */
  ghost predicate HeldBy(holds: seq<Hold>, k: SeatKey, u: Id, t: int) {
    exists i :: 0 <= i < |holds| && Open(holds[i], k) && holds[i].user == u && t <= holds[i].expiresAt
  }

  ghost predicate OneOpenHold(holds: seq<Hold>) {
    forall i, j :: 0 <= i < j < |holds| && holds[i].released.None? && holds[j].released.None? ==>
        holds[i].key != holds[j].key
  }

  ghost predicate HeldIffOpenHold(st: Store) {
    && (forall i :: 0 <= i < |st.holds| && st.holds[i].released.None? ==>
       st.holds[i].key in st.rows && st.rows[st.holds[i].key].status == Held)
    && (forall k :: k in st.rows && st.rows[k].status == Held ==> HasOpenHold(st.holds, k))
  }

  ghost predicate LocksBacked(st: Store) {
    forall k :: k in st.locks ==>
        st.now < st.locks[k].expiresAt && HeldBy(st.holds, k, st.locks[k].user, st.locks[k].expiresAt)
  }

  ghost predicate NoneReserved(rows: map<SeatKey, Row>) {
    forall k :: k in rows ==> rows[k].status != Reserved
  }

  /** A seat is HELD iff it has exactly one open hold; a live lock belongs to the user of that hold and
      does not outlive it. */
  ghost predicate Inv(st: Store) {
    OneOpenHold(st.holds) && HeldIffOpenHold(st) && LocksBacked(st) && NoneReserved(st.rows)
  }

  /** The open holds after a successful hold: the old ones off the new seats, and one on each of these. */
  lemma HoldsAfterHold(st: Store, e: Id, ids: seq<Id>, u: Id, t: int)
    requires OneOpenHold(st.holds) && HeldIffOpenHold(st) && CanHold(st, e, ids)
    ensures var hs := st.holds + NewHolds(e, ids, u, t);
            && (forall i :: 0 <= i < |st.holds| && hs[i].released.None? ==> hs[i].key !in Keys(e, ids))
            && (forall i :: |st.holds| <= i < |hs| ==> hs[i].key in Keys(e, ids))
            && OneOpenHold(hs)
  {
    var n, hs := |st.holds|, st.holds + NewHolds(e, ids, u, t);
    forall i | 0 <= i < |hs|
      ensures i < n && hs[i].released.None? ==> hs[i].key !in Keys(e, ids)
      ensures i >= n ==> hs[i].key in Keys(e, ids) && hs[i].key.seat == ids[i - n]
    {
      if i < n { assert hs[i] == st.holds[i]; } else { assert hs[i].key == SeatKey(e, ids[i - n]); }
    }
    forall i, j | 0 <= i < j < |hs| && hs[i].released.None? && hs[j].released.None? ensures hs[i].key != hs[j].key {
      if j < n { assert hs[i] == st.holds[i] && hs[j] == st.holds[j]; }
    }
  }

  lemma HoldKeepsOneOpen(st: Store, e: Id, ids: seq<Id>, u: Id, elapsed: nat)
    requires OneOpenHold(st.holds) && HeldIffOpenHold(st) && CanHold(st, e, ids)
    ensures OneOpenHold(AfterHold(st, e, ids, u, elapsed).holds)
  {
    hide OneOpenHold, HeldIffOpenHold, CanHold, PutLocks, PutAvail, Restatus;
    HoldsAfterHold(st, e, ids, u, st.now + elapsed + HOLD_DURATION_MS);
  }

  lemma HoldKeepsHeldIff(st: Store, e: Id, ids: seq<Id>, u: Id, elapsed: nat)
    requires OneOpenHold(st.holds) && HeldIffOpenHold(st) && CanHold(st, e, ids)
    ensures HeldIffOpenHold(AfterHold(st, e, ids, u, elapsed))
  {
    var st' := AfterHold(st, e, ids, u, elapsed);
    HoldsAfterHold(st, e, ids, u, st.now + elapsed + HOLD_DURATION_MS);
    OldHoldsRemain(st, e, ids, u, st.now + elapsed + HOLD_DURATION_MS);
    NewHoldsAppear(st, e, ids, u, st.now + elapsed + HOLD_DURATION_MS);
    forall i | 0 <= i < |st'.holds| && st'.holds[i].released.None?
      ensures st'.holds[i].key in st'.rows && st'.rows[st'.holds[i].key].status == Held
    {
      if i < |st.holds| { assert st'.holds[i] == st.holds[i]; }
    }
  }

  lemma OldHoldRemains(holds: seq<Hold>, more: seq<Hold>, k: SeatKey, u: Id, t: int)
    requires HeldBy(holds, k, u, t)
    ensures HeldBy(holds + more, k, u, t)
  {
    var i :| 0 <= i < |holds| && Open(holds[i], k) && holds[i].user == u && t <= holds[i].expiresAt;
    assert (holds + more)[i] == holds[i];
  }

  lemma NewHoldBacks(holds: seq<Hold>, e: Id, ids: seq<Id>, u: Id, t: int, k: SeatKey, t': int)
    requires k in Keys(e, ids) && t' <= t
    ensures HeldBy(holds + NewHolds(e, ids, u, t), k, u, t')
  {
    var i :| 0 <= i < |ids| && k == SeatKey(e, ids[i]);
    assert Open((holds + NewHolds(e, ids, u, t))[|holds| + i], k);
  }

  lemma HoldKeepsLocks(st: Store, e: Id, ids: seq<Id>, u: Id, elapsed: nat)
    requires LocksBacked(st)
    ensures LocksBacked(AfterHold(st, e, ids, u, elapsed))
  {
    var st' := AfterHold(st, e, ids, u, elapsed);
    var t := st.now + elapsed + HOLD_DURATION_MS;
    forall k | k in st'.locks
      ensures st'.now < st'.locks[k].expiresAt && HeldBy(st'.holds, k, st'.locks[k].user, st'.locks[k].expiresAt)
    {
      if k in Keys(e, ids) {
        NewHoldBacks(st.holds, e, ids, u, t, k, st.now + LOCK_TTL_MS);
      } else {
        OldHoldRemains(st.holds, NewHolds(e, ids, u, t), k, st.locks[k].user, st.locks[k].expiresAt);
      }
    }
  }

  lemma {:induction false} HoldKeepsInv(st: Store, e: Id, ids: seq<Id>, u: Id, elapsed: nat)
    requires Inv(st)
    ensures Inv(HoldSeats(st, e, ids, u, elapsed))
  {
    if CanHold(st, e, ids) {
      HoldKeepsOneOpen(st, e, ids, u, elapsed);
      HoldKeepsHeldIff(st, e, ids, u, elapsed);
      HoldKeepsLocks(st, e, ids, u, elapsed);
      assert NoneReserved(AfterHold(st, e, ids, u, elapsed).rows);
    }
  }

  lemma OldHoldsRemain(st: Store, e: Id, ids: seq<Id>, u: Id, t: int)
    ensures forall k :: HasOpenHold(st.holds, k) ==> HasOpenHold(st.holds + NewHolds(e, ids, u, t), k)
    ensures forall k, v, x :: HeldBy(st.holds, k, v, x) ==> HeldBy(st.holds + NewHolds(e, ids, u, t), k, v, x)
  {
    var hs := st.holds + NewHolds(e, ids, u, t);
    assert forall i :: 0 <= i < |st.holds| ==> hs[i] == st.holds[i];
  }

  lemma NewHoldsAppear(st: Store, e: Id, ids: seq<Id>, u: Id, t: int)
    ensures forall k :: k in Keys(e, ids) ==> HasOpenHold(st.holds + NewHolds(e, ids, u, t), k)
    ensures forall k :: k in Keys(e, ids) ==> HeldBy(st.holds + NewHolds(e, ids, u, t), k, u, t)
  {
    var hs := st.holds + NewHolds(e, ids, u, t);
    forall k | k in Keys(e, ids) ensures HasOpenHold(hs, k) && HeldBy(hs, k, u, t) {
      var i :| 0 <= i < |ids| && k == SeatKey(e, ids[i]);
      assert hs[|st.holds| + i] == Hold(k, u, t, None);
    }
  }

  /** Some requested seat is under an open hold of somebody else. */
  ghost predicate HeldByOther(st: Store, ks: set<SeatKey>, u: Id) {
    exists i :: 0 <= i < |st.holds| && st.holds[i].released.None? && st.holds[i].key in ks && st.holds[i].user != u
  }

  /** Closing u's holds on ks leaves exactly the open holds that are elsewhere or somebody else's. */
  lemma ClosingLeaves(holds: seq<Hold>, ks: set<SeatKey>, u: Id, reason: Reason)
    ensures forall k :: k !in ks ==> (HasOpenHold(CloseHolds(holds, ks, u, reason), k) <==> HasOpenHold(holds, k))
    ensures forall k, v, x :: k !in ks ==>
            (HeldBy(CloseHolds(holds, ks, u, reason), k, v, x) <==> HeldBy(holds, k, v, x))
    ensures forall k, v, x :: v != u ==> (HeldBy(CloseHolds(holds, ks, u, reason), k, v, x) <==> HeldBy(holds, k, v, x))
  {
    var hs := CloseHolds(holds, ks, u, reason);
    assert forall i :: 0 <= i < |holds| ==> hs[i] == CloseHold(holds[i], ks, u, reason);
    forall k | k !in ks ensures HasOpenHold(hs, k) <==> HasOpenHold(holds, k) {
      if HasOpenHold(hs, k) { var i :| 0 <= i < |hs| && Open(hs[i], k); assert Open(holds[i], k); }
      if HasOpenHold(holds, k) { var i :| 0 <= i < |holds| && Open(holds[i], k); assert Open(hs[i], k); }
    }
    forall k, v, x | k !in ks || v != u ensures HeldBy(hs, k, v, x) <==> HeldBy(holds, k, v, x) {
      if HeldBy(hs, k, v, x) {
        var i :| 0 <= i < |hs| && Open(hs[i], k) && hs[i].user == v && x <= hs[i].expiresAt;
        assert Open(holds[i], k);
      }
      if HeldBy(holds, k, v, x) {
        var i :| 0 <= i < |holds| && Open(holds[i], k) && holds[i].user == v && x <= holds[i].expiresAt;
        assert Open(hs[i], k);
      }
    }
  }

  /** What `releaseSeats` and `markAsSold` have in common: they write `s` on the requested rows. */
  function Overwrite(st: Store, ks: set<SeatKey>, u: Id, s: Status, reason: Reason): Store {
    st.(rows := Restatus(st.rows, ks, s),
        holds := CloseHolds(st.holds, ks, u, reason),
        locks := DropLocks(st.locks, ks, u),
        avail := PutAvail(st.avail, ks, s))
  }

  lemma OverwriteBreaks(st: Store, ks: set<SeatKey>, u: Id, s: Status, reason: Reason)
    requires HeldIffOpenHold(st) && s != Held && HeldByOther(st, ks, u)
    ensures !HeldIffOpenHold(Overwrite(st, ks, u, s, reason))
  {
    var st' := Overwrite(st, ks, u, s, reason);
    var i :| 0 <= i < |st.holds| && st.holds[i].released.None? && st.holds[i].key in ks && st.holds[i].user != u;
    assert st'.holds[i] == CloseHold(st.holds[i], ks, u, reason);
    assert st'.holds[i].released.None? && st'.rows[st'.holds[i].key].status == s;
  }

  lemma OverwriteKeepsHeldIff(st: Store, ks: set<SeatKey>, u: Id, s: Status, reason: Reason)
    requires OneOpenHold(st.holds) && HeldIffOpenHold(st) && s != Held && !HeldByOther(st, ks, u)
    ensures OneOpenHold(Overwrite(st, ks, u, s, reason).holds) && HeldIffOpenHold(Overwrite(st, ks, u, s, reason))
  {
    hide DropLocks, PutAvail;
    var st' := Overwrite(st, ks, u, s, reason);
    assert forall i :: 0 <= i < |st.holds| ==> st'.holds[i] == CloseHold(st.holds[i], ks, u, reason);
    ClosingLeaves(st.holds, ks, u, reason);
  }

  lemma OverwriteKeepsLocks(st: Store, ks: set<SeatKey>, u: Id, s: Status, reason: Reason)
    requires LocksBacked(st)
    ensures LocksBacked(Overwrite(st, ks, u, s, reason))
  {
    var st' := Overwrite(st, ks, u, s, reason);
    ClosingLeaves(st.holds, ks, u, reason);
    forall k | k in st'.locks ensures HeldBy(st'.holds, k, st'.locks[k].user, st'.locks[k].expiresAt) {
      assert HeldBy(st.holds, k, st.locks[k].user, st.locks[k].expiresAt);
    }
  }

  /** Overwriting is safe exactly when no requested seat is under somebody else's open hold. */
  lemma OverwriteKeepsInvIff(st: Store, ks: set<SeatKey>, u: Id, s: Status, reason: Reason)
    requires Inv(st)
    requires s == Available || s == Sold
    ensures Inv(Overwrite(st, ks, u, s, reason)) <==> !HeldByOther(st, ks, u)
  {
    if HeldByOther(st, ks, u) {
      OverwriteBreaks(st, ks, u, s, reason);
    } else {
      OverwriteKeepsHeldIff(st, ks, u, s, reason);
      OverwriteKeepsLocks(st, ks, u, s, reason);
      assert NoneReserved(Overwrite(st, ks, u, s, reason).rows);
    }
  }

  lemma {:induction false} ReleaseKeepsInvIff(st: Store, e: Id, ids: seq<Id>, u: Id, reason: Reason)
    requires Inv(st)
    ensures Inv(ReleaseSeats(st, e, ids, u, reason)) <==> !HeldByOther(st, Keys(e, ids), u)
  {
    OverwriteKeepsInvIff(st, Keys(e, ids), u, Available, reason);
  }

  lemma {:induction false} MarkAsSoldKeepsInvIff(st: Store, e: Id, ids: seq<Id>, u: Id)
    requires Inv(st)
    ensures Inv(MarkAsSold(st, e, ids, u)) <==> !HeldByOther(st, Keys(e, ids), u)
  {
    OverwriteKeepsInvIff(st, Keys(e, ids), u, Sold, PaymentSuccess);
  }

  /** `relaseSoldSeats` closes no hold, so it is safe exactly when no requested seat is HELD. */
  lemma {:induction false} ReleaseSoldKeepsInvIff(st: Store, e: Id, ids: seq<Id>)
    requires Inv(st)
    ensures Inv(ReleaseSoldSeats(st, e, ids))
            <==> forall k :: k in Keys(e, ids) && k in st.rows ==> st.rows[k].status != Held
  {
    var st' := ReleaseSoldSeats(st, e, ids);
    if k :| k in Keys(e, ids) && k in st.rows && st.rows[k].status == Held {
      assert HasOpenHold(st.holds, k);
      var i :| 0 <= i < |st.holds| && Open(st.holds[i], k);
      assert st'.rows[k].status == Available;
    }
  }

  lemma InvIgnoresCache(st: Store, avail: map<SeatKey, Status>)
    ensures Inv(st.(avail := avail)) <==> Inv(st)
  {
  }

  /** A release that throws on its way keeps the invariant if it is rolled back, and otherwise exactly when no
      requested seat is under somebody else's open hold, nor locked if the locks were not deleted. */
  lemma {:induction false} ReleaseUpToKeepsInvIff(st: Store, e: Id, ids: seq<Id>, u: Id, reason: Reason, reach: Reach)
    requires Inv(st)
    ensures Inv(ReleaseUpTo(st, e, ids, u, reason, reach)) <==>
            || reach.RolledBack?
            || (!HeldByOther(st, Keys(e, ids), u) && (reach.Committed? ==> Keys(e, ids) !! st.locks.Keys))
  {
    hide Inv, HeldByOther, ReleaseSeats;
    var done := ReleaseSeats(st, e, ids, u, reason);
    ReleaseKeepsInvIff(st, e, ids, u, reason);
    InvIgnoresCache(done, st.avail);
    InvIgnoresCache(done.(locks := st.locks), st.avail);
    assert done.(locks := st.locks).(avail := st.avail) == done.(locks := st.locks, avail := st.avail);
    if Inv(done) {
      LocksLeftBehind(st, e, ids, u, reason);
    } else {
      HeldIffBroken(st, e, ids, u, reason);
    }
  }

  lemma NoOpenHoldOnFreed(st: Store, k: SeatKey)
    requires HeldIffOpenHold(st) && k in st.rows && st.rows[k].status == Available
    ensures forall i :: 0 <= i < |st.holds| ==> !Open(st.holds[i], k)
  {
  }

  lemma LockedKeyLeft(st: Store, e: Id, ids: seq<Id>, u: Id, reason: Reason, k: SeatKey)
    requires Inv(st) && Inv(ReleaseSeats(st, e, ids, u, reason)) && k in Keys(e, ids) && k in st.locks
    ensures !LocksBacked(ReleaseSeats(st, e, ids, u, reason).(locks := st.locks))
  {
    hide LocksBacked, OneOpenHold, DropLocks, PutAvail, CloseHolds, Keys;
    var done := ReleaseSeats(st, e, ids, u, reason);
    LockedIsHeld(st, k);
    NoOpenHoldOnFreed(done, k);
    NotBacked(done.(locks := st.locks), k);
  }

  lemma LockedIsHeld(st: Store, k: SeatKey)
    requires HeldIffOpenHold(st) && LocksBacked(st) && k in st.locks
    ensures k in st.rows
  {
    assert HeldBy(st.holds, k, st.locks[k].user, st.locks[k].expiresAt);
  }

  lemma NotBacked(st: Store, k: SeatKey)
    requires k in st.locks && forall i :: 0 <= i < |st.holds| ==> !Open(st.holds[i], k)
    ensures !LocksBacked(st)
  {
  }

  lemma LocksLeftBehind(st: Store, e: Id, ids: seq<Id>, u: Id, reason: Reason)
    requires Inv(st) && Inv(ReleaseSeats(st, e, ids, u, reason))
    ensures Inv(ReleaseSeats(st, e, ids, u, reason).(locks := st.locks)) <==> Keys(e, ids) !! st.locks.Keys
  {
    hide LocksBacked, OneOpenHold, HeldIffOpenHold, NoneReserved, PutAvail, CloseHolds, Keys, Restatus;
    if k :| k in Keys(e, ids) && k in st.locks {
      LockedKeyLeft(st, e, ids, u, reason, k);
    } else {
      assert DropLocks(st.locks, Keys(e, ids), u) == st.locks;
    }
  }

  lemma HeldIffBroken(st: Store, e: Id, ids: seq<Id>, u: Id, reason: Reason)
    requires Inv(st) && !Inv(ReleaseSeats(st, e, ids, u, reason))
    ensures !Inv(ReleaseSeats(st, e, ids, u, reason).(locks := st.locks))
  {
    ReleaseKeepsInvIff(st, e, ids, u, reason);
    OverwriteBreaks(st, Keys(e, ids), u, Available, reason);
  }

  /** A concrete witness that the condition can fail: B releases A's seat. */
  lemma {:induction false} ReleaseByStranger()
    ensures exists st: Store, e, ids, u :: Inv(st) && !Inv(ReleaseSeats(st, e, ids, u, UserCancel))
  {
    AliceHolds();
    ReleaseKeepsInvIff(AlicesSeat(), "e", ["s"], "bob", UserCancel);
  }

  /** Another: A's seat is marked as sold to B. */
  lemma {:induction false} SaleToStranger()
    ensures exists st: Store, e, ids, u :: Inv(st) && !Inv(MarkAsSold(st, e, ids, u))
  {
    AliceHolds();
    MarkAsSoldKeepsInvIff(AlicesSeat(), "e", ["s"], "bob");
  }

  /** And one for the third: A's seat is released as if it had been sold. */
  lemma {:induction false} ReleaseOfHeldSeat()
    ensures exists st: Store, e, ids :: Inv(st) && !Inv(ReleaseSoldSeats(st, e, ids))
  {
    AliceHolds();
    ReleaseSoldKeepsInvIff(AlicesSeat(), "e", ["s"]);
  }

  /** One seat, held by alice. */
  function AlicesSeat(): Store {
    var k := SeatKey("e", "s");
    Store(0, map[k := Row(Held, Detail("A", 1))], [Hold(k, "alice", 5, None)], map[], map[], map[])
  }

  lemma AliceHolds()
    ensures Inv(AlicesSeat()) && HeldByOther(AlicesSeat(), Keys("e", ["s"]), "bob")
    ensures SeatKey("e", "s") in Keys("e", ["s"])
  {
    var st, k := AlicesSeat(), SeatKey("e", "s");
    assert Open(st.holds[0], k);
    assert st.holds[0].key in Keys("e", ["s"]) by { assert "s" in ["s"]; }
    assert st.holds[0].user == "alice" && "alice"[0] != "bob"[0];
  }

  lemma TickKeepsInv(st: Store, d: nat)
    requires Inv(st)
    ensures Inv(Tick(st, d))
  {
  }

  lemma CreateKeepsInv(st: Store, e: Id, seats: seq<NewSeat>)
    requires Inv(st)
    ensures Inv(CreateFromEvent(st, e, seats))
  {
    if !HasRows(st.rows, e) && Distinct(SeatIds(seats)) {
      var st' := CreateFromEvent(st, e, seats);
      assert forall k :: k in NewRows(e, seats) ==> k.event == e;
      assert forall k :: k in st.rows ==> k !in NewRows(e, seats) && st'.rows[k] == st.rows[k];
    }
  }

  lemma RebuildKeepsInv(st: Store, e: Id)
    requires Inv(st)
    ensures Inv(RebuildCache(st, e))
  {
  }

  // ----- runs

  datatype Op =
    | OpHold(e: Id, ids: seq<Id>, u: Id, elapsed: nat)
    | OpRelease(e: Id, ids: seq<Id>, u: Id, reason: Reason)
    | OpSell(e: Id, ids: seq<Id>, u: Id)
    | OpReleaseSold(e: Id, ids: seq<Id>)
    | OpCreate(e: Id, seats: seq<NewSeat>)
    | OpRebuild(e: Id)
    | OpTick(d: nat)

  function Apply(st: Store, op: Op): Store {
    match op
    case OpHold(e, ids, u, elapsed) => HoldSeats(st, e, ids, u, elapsed)
    case OpRelease(e, ids, u, reason) => ReleaseSeats(st, e, ids, u, reason)
    case OpSell(e, ids, u) => MarkAsSold(st, e, ids, u)
    case OpReleaseSold(e, ids) => ReleaseSoldSeats(st, e, ids)
    case OpCreate(e, seats) => CreateFromEvent(st, e, seats)
    case OpRebuild(e) => RebuildCache(st, e)
    case OpTick(d) => Tick(st, d)
  }

  /** Holds, inventory creation, rebuilds and time need no guard; the overwriting operations do. */
  ghost predicate Guard(st: Store, op: Op) {
    match op
    case OpRelease(e, ids, u, _) => !HeldByOther(st, Keys(e, ids), u)
    case OpSell(e, ids, u) => !HeldByOther(st, Keys(e, ids), u)
    case OpReleaseSold(e, ids) => forall k :: k in Keys(e, ids) && k in st.rows ==> st.rows[k].status != Held
    case _ => true
  }

  function Run(st: Store, ops: seq<Op>): Store {
    if ops == [] then st else Apply(Run(st, ops[..|ops| - 1]), ops[|ops| - 1])
  }

  ghost predicate Guarded(st: Store, ops: seq<Op>) {
    ops == [] || (Guarded(st, ops[..|ops| - 1]) && Guard(Run(st, ops[..|ops| - 1]), ops[|ops| - 1]))
  }

  /** One step keeps the invariant exactly when its guard holds. */
  lemma {:induction false} StepKeepsInvIff(st: Store, op: Op)
    requires Inv(st)
    ensures Inv(Apply(st, op)) <==> Guard(st, op)
  {
    match op
    case OpHold(e, ids, u, elapsed) => HoldKeepsInv(st, e, ids, u, elapsed);
    case OpRelease(e, ids, u, reason) => ReleaseKeepsInvIff(st, e, ids, u, reason);
    case OpSell(e, ids, u) => MarkAsSoldKeepsInvIff(st, e, ids, u);
    case OpReleaseSold(e, ids) => ReleaseSoldKeepsInvIff(st, e, ids);
    case OpCreate(e, seats) => CreateKeepsInv(st, e, seats);
    case OpRebuild(e) => RebuildKeepsInv(st, e);
    case OpTick(d) => TickKeepsInv(st, d);
  }

  lemma {:induction false} RunKeepsInv(st: Store, ops: seq<Op>)
    requires Inv(st) && Guarded(st, ops)
    ensures Inv(Run(st, ops))
  {
    if ops != [] {
      RunKeepsInv(st, ops[..|ops| - 1]);
      StepKeepsInvIff(Run(st, ops[..|ops| - 1]), ops[|ops| - 1]);
    }
  }

  /** In every reachable state a positive `verifyHold` means that each seat is HELD, under an open
      hold of that user that has not expired. */
  lemma {:induction false} VerifiedMeansHeld(st: Store, ops: seq<Op>, e: Id, ids: seq<Id>, u: Id, k: SeatKey)
    requires Inv(st) && Guarded(st, ops)
    requires VerifyHold(Run(st, ops), e, ids, u) && k in Keys(e, ids)
    ensures var now := Run(st, ops);
            k in now.rows && now.rows[k].status == Held && HeldBy(now.holds, k, u, now.now + 1)
  {
    RunKeepsInv(st, ops);
    var s := Run(st, ops);
    assert HeldBy(s.holds, k, u, s.locks[k].expiresAt);
    var i :| 0 <= i < |s.holds| && Open(s.holds[i], k) && s.holds[i].user == u
        && s.locks[k].expiresAt <= s.holds[i].expiresAt;
    assert s.holds[i].key == k;
  }
}
