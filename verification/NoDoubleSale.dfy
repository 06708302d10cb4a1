/** No seat is sold twice.  A step that the code lets through keeps the invariant if and only if what is assumed
    of it holds, and the invariant holds in every run of such steps. */
module NoDoubleSale {
  import opened Basics
  import opened SeatStore
  import opened SeatInvariant
  import opened BookingSaga
  import opened SalesModel
  import ExpirySweep

  // ----- requests to the inventory

  lemma QuietInventoryKeepsSafe(s: Sys, op: SeatInvariant.Op)
    requires Safe(s) && (op.OpHold? || op.OpCreate? || op.OpRebuild? || op.OpTick?)
    ensures Safe(After(s, Inventory(op)))
  {
    var s' := After(s, Inventory(op));
    StepKeepsInvIff(s.st, op);
    forall c: nat | Exists(s, c) && !s.tracks[c].Closed? ensures SameOn(s.st, s'.st, KeysOf(s.bookings[c])) {
      assert BookingOk(s, c);
      match op
      case OpHold(e, ids, u, elapsed) => HoldElsewhere(s.st, e, ids, u, elapsed, KeysOf(s.bookings[c]));
      case _ => OtherInventoryElsewhere(s.st, op, KeysOf(s.bookings[c]));
    }
    QuietSellsNothing(s.st, op);
    StoreStepIsSafe(s, s');
  }

  lemma QuietSellsNothing(st: Store, op: SeatInvariant.Op)
    requires op.OpHold? || op.OpCreate? || op.OpRebuild? || op.OpTick?
    ensures NoneSold(st, SeatInvariant.Apply(st, op))
  {
  }

  /** A booking that is not closed has seats in the inventory, none of them AVAILABLE. */
  lemma OpenSeats(s: Sys, c: nat, k: SeatKey)
    requires Safe(s) && Exists(s, c) && !s.tracks[c].Closed? && k in KeysOf(s.bookings[c])
    ensures k in s.st.rows && s.st.rows[k].status == if s.tracks[c].Delivered? then Sold else Held
  {
    assert BookingOk(s, c);
  }

  /** A release by anybody, of anything: `releaseSeats` checks neither holder nor status. */
  lemma {:induction false} ReleaseSafeIff(s: Sys, e: Id, ids: seq<Id>, u: Id, reason: Reason)
    requires Safe(s)
    ensures Safe(s.(st := ReleaseSeats(s.st, e, ids, u, reason))) <==>
            !HeldByOther(s.st, Keys(e, ids), u) && SparesOpen(s, Keys(e, ids))
  {
    hide Inv, HeldByOther;
    var s' := s.(st := ReleaseSeats(s.st, e, ids, u, reason));
    ReleaseKeepsInvIff(s.st, e, ids, u, reason);
    if c: nat :| Exists(s, c) && !s.tracks[c].Closed? && !(Keys(e, ids) !! KeysOf(s.bookings[c])) {
      var k :| k in Keys(e, ids) && k in KeysOf(s.bookings[c]);
      OpenSeats(s, c, k);
      FreedSeatBreaks(s', c, k);
    } else if Inv(s'.st) {
      forall c: nat | Exists(s, c) && !s.tracks[c].Closed? ensures SameOn(s.st, s'.st, KeysOf(s.bookings[c])) {
        OverwriteElsewhere(s.st, Keys(e, ids), u, Available, reason, KeysOf(s.bookings[c]));
      }
      StoreStepIsSafe(s, s');
    }
  }

  lemma FreedSeatBreaks(s: Sys, c: nat, k: SeatKey)
    requires Exists(s, c) && !s.tracks[c].Closed? && k in KeysOf(s.bookings[c])
    requires k in s.st.rows && s.st.rows[k].status == Available
    ensures !Safe(s)
  {
    assert !BookingOk(s, c);
  }

  /** Marking seats as sold, for no booking or once more: safe exactly when there is nothing to do. */
  lemma {:induction false} SellSafeIff(s: Sys, e: Id, ids: seq<Id>, u: Id)
    requires Safe(s)
    ensures Safe(s.(st := MarkAsSold(s.st, e, ids, u))) <==> AllIn(s.st, Keys(e, ids), Sold)
  {
    hide Inv, HeldByOther;
    var s' := s.(st := MarkAsSold(s.st, e, ids, u));
    MarkAsSoldKeepsInvIff(s.st, e, ids, u);
    if k :| k in Keys(e, ids) && k in s.st.rows && s.st.rows[k].status != Sold {
      NewlySoldIsStranded(s, s', k);
    } else {
      NothingOverwritten(s.st, Keys(e, ids), u, Sold, PaymentSuccess, {});
      forall c: nat | Exists(s, c) && !s.tracks[c].Closed? ensures SameOn(s.st, s'.st, KeysOf(s.bookings[c])) {
        NothingOverwritten(s.st, Keys(e, ids), u, Sold, PaymentSuccess, KeysOf(s.bookings[c]));
      }
      StoreStepIsSafe(s, s');
    }
  }

  /** SOLD, but to no booking. */
  ghost predicate Stranded(s: Sys, k: SeatKey) {
    k in s.st.rows && s.st.rows[k].status == Sold && forall b: nat :: !SoldTo(s, k, b)
  }

  /** A seat that becomes SOLD without a delivery to its booking belongs to no booking. */
  lemma NewlySoldIsStranded(s: Sys, s': Sys, k: SeatKey)
    requires Safe(s) && k in s.st.rows && s.st.rows[k].status != Sold
    requires k in s'.st.rows && s'.st.rows[k].status == Sold
    requires s'.tracks == s.tracks && |s'.bookings| == |s.bookings|
    requires forall c: nat :: Exists(s, c) ==> KeysOf(s'.bookings[c]) == KeysOf(s.bookings[c])
    ensures Stranded(s', k) && !Safe(s')
  {
    forall c: nat ensures !SoldTo(s', k, c) {
      if SoldTo(s', k, c) {
        OpenSeats(s, c, k);
      }
    }
  }

  /** Releasing seats as sold, for no booking or once more: safe exactly when there is nothing to do. */
  lemma {:induction false} ReleaseSoldSafeIff(s: Sys, e: Id, ids: seq<Id>, reach: Reach)
    requires Safe(s)
    ensures Safe(s.(st := ReleaseSoldUpTo(s.st, e, ids, reach))) <==>
            reach.RolledBack? || AllIn(s.st, Keys(e, ids), Available)
  {
    hide Inv;
    var s' := s.(st := ReleaseSoldUpTo(s.st, e, ids, reach));
    ReleaseSoldUpToInvIff(s.st, e, ids, reach);
    if !reach.RolledBack? {
      if k :| k in Keys(e, ids) && k in s.st.rows && s.st.rows[k].status == Sold {
        var c: nat :| SoldTo(s, k, c);
        FreedSeatBreaks(s', c, k);
      } else if Inv(s'.st) {
        NoneElse(s.st, Keys(e, ids));
        forall c: nat | Exists(s, c) && !s.tracks[c].Closed? ensures SameOn(s.st, s'.st, KeysOf(s.bookings[c])) {
        }
        StoreStepIsSafe(s, s');
      }
    }
  }

  lemma NoneElse(st: Store, ks: set<SeatKey>)
    requires Inv(st) && forall k :: k in ks && k in st.rows ==> st.rows[k].status != Held && st.rows[k].status != Sold
    ensures AllIn(st, ks, Available)
  {
  }

  lemma ReleaseSoldUpToInvIff(st: Store, e: Id, ids: seq<Id>, reach: Reach)
    requires Inv(st)
    ensures Inv(ReleaseSoldUpTo(st, e, ids, reach)) <==>
            reach.RolledBack? || forall k :: k in Keys(e, ids) && k in st.rows ==> st.rows[k].status != Held
  {
    hide Inv;
    ReleaseSoldKeepsInvIff(st, e, ids);
    InvIgnoresCache(ReleaseSoldSeats(st, e, ids), st.avail);
  }

  // ----- the sweep

  lemma ExpiredSeatsAreHeld(s: Sys)
    requires Safe(s)
    ensures forall k :: k in ExpirySweep.ExpiredKeys(s.st) ==> k in s.st.rows && s.st.rows[k].status == Held
  {
    forall k | k in ExpirySweep.ExpiredKeys(s.st) ensures k in s.st.rows && s.st.rows[k].status == Held {
      var h :| h in s.st.holds && ExpirySweep.IsExpired(h, s.st.now) && h.key == k;
      var i :| 0 <= i < |s.st.holds| && s.st.holds[i] == h;
    }
  }

  lemma {:induction false} SweepSafeIff(s: Sys)
    requires Safe(s) && ExpirySweep.ColonFree(s.st.holds)
    ensures Safe(After(s, Sweep)) <==> SparesEngaged(s, ExpirySweep.ExpiredKeys(s.st))
  {
    hide Inv, ExpirySweep.ExpiredKeys, ExpirySweep.Sweep;
    var ks, s' := ExpirySweep.ExpiredKeys(s.st), After(s, Sweep);
    ExpirySweep.SweepIsExact(s.st);
    ExpiredSeatsAreHeld(s);
    if c: nat :| Exists(s, c) && Engaged(s.tracks[c]) && !(ks !! KeysOf(s.bookings[c])) {
      var k :| k in ks && k in KeysOf(s.bookings[c]);
      FreedSeatBreaks(s', c, k);
    } else {
      forall c: nat | Exists(s, c) && !s.tracks[c].Closed? ensures SameOn(s.st, s'.st, KeysOf(s.bookings[c])) {
        HeldSparesDelivered(s, ks, c);
        SweepElsewhere(s.st, KeysOf(s.bookings[c]));
      }
      StoreStepIsSafe(s, s');
    }
  }

  lemma HeldSparesDelivered(s: Sys, ks: set<SeatKey>, c: nat)
    requires Safe(s) && Exists(s, c) && !s.tracks[c].Closed? && SparesEngaged(s, ks)
    requires forall k :: k in ks ==> k in s.st.rows && s.st.rows[k].status == Held
    ensures ks !! KeysOf(s.bookings[c])
  {
    if s.tracks[c].Delivered? {
      forall k | k in ks ensures k !in KeysOf(s.bookings[c]) {
        if k in KeysOf(s.bookings[c]) {
          OpenSeats(s, c, k);
        }
      }
    }
  }

  // ----- orders

  /** A positive `verifyHold` on HELD seats means that the user holds them. */
  lemma BookableMeansHeldBy(st: Store, u: Id, e: Id, ids: seq<Id>, k: SeatKey)
    requires Inv(st) && Bookable(st, u, e, ids) && k in Keys(e, ids)
    ensures k in st.rows && st.rows[k].status == Held && OwnHold(st.holds, k, u)
  {
    assert HeldBy(st.holds, k, u, st.locks[k].expiresAt);
  }

  lemma OrderIsSeparate(s: Sys, u: Id, e: Id, ids: seq<Id>, c: nat)
    requires Safe(s) && Enabled(s, Order(u, e, ids)) && Exists(s, c) && !s.tracks[c].Closed?
    ensures Keys(e, ids) !! KeysOf(s.bookings[c])
  {
    assert BookingOk(s, c);
    forall k | k in Keys(e, ids) && k in KeysOf(s.bookings[c]) ensures false {
      BookableMeansHeldBy(s.st, u, e, ids, k);
      OneOwner(s.st, k, u, s.bookings[c].user);
    }
  }

  lemma OrderKeepsOwned(s: Sys, u: Id, e: Id, ids: seq<Id>)
    requires SoldOwned(s) && |s.tracks| == |s.bookings|
    ensures SoldOwned(After(s, Order(u, e, ids)))
  {
    var s' := After(s, Order(u, e, ids));
    forall k | k in s'.st.rows && s'.st.rows[k].status == Sold ensures exists c: nat :: SoldTo(s', k, c) {
      var c: nat :| SoldTo(s, k, c);
      assert SoldTo(s', k, c);
    }
  }

  lemma OrderIsOk(s: Sys, u: Id, e: Id, ids: seq<Id>)
    requires Safe(s) && Bookable(s.st, u, e, ids)
    ensures var s' := After(s, Order(u, e, ids)); Exists(s', |s.bookings|) && BookingOk(s', |s.bookings|)
    ensures KeysOf(After(s, Order(u, e, ids)).bookings[|s.bookings|]) == Keys(e, ids)
  {
    var row := NewBooking(s.st, u, e, ids);
    assert SeatsOf(row) == ids;
    forall k | k in Keys(e, ids) ensures k in s.st.rows && s.st.rows[k].status == Held && OwnHold(s.st.holds, k, u) {
      BookableMeansHeldBy(s.st, u, e, ids, k);
    }
  }

  /** `createBooking` checks nothing that its own insert changes. */
  lemma {:induction false} OrderSafeIff(s: Sys, u: Id, e: Id, ids: seq<Id>)
    requires Safe(s) && Bookable(s.st, u, e, ids)
    ensures Safe(After(s, Order(u, e, ids))) <==> Assumed(s, Order(u, e, ids))
  {
    hide Bookable, SoldOwned, RowOk, SeatsOk;
    var s' := After(s, Order(u, e, ids));
    var n := |s.bookings|;
    OrderIsOk(s, u, e, ids);
    OrderKeepsOwned(s, u, e, ids);
    if b: nat :| Exists(s, b) && Engaged(s.tracks[b]) && s.bookings[b].user == u
                 && !(Keys(e, ids) !! KeysOf(s.bookings[b])) {
      assert Exists(s', b) && Exists(s', n) && !Separate(s', b, n);
    } else {
      forall b: nat | Exists(s', b) ensures BookingOk(s', b) {
        if b < n { assert BookingOk(s, b); }
      }
      forall b: nat, c: nat | Exists(s', b) && Exists(s', c) && b != c ensures Separate(s', b, c) {
        if b < n && c < n { assert Separate(s, b, c); }
        if b < n && !s.tracks[b].Closed? { OrderIsSeparate(s, u, e, ids, b); }
        if c < n && !s.tracks[c].Closed? { OrderIsSeparate(s, u, e, ids, c); }
      }
    }
  }

  // ----- steps of one booking

  /** A booking row changes, the stores do not. */
  lemma RowStepIsSafe(s: Sys, b: nat, row: Booking, t: Track)
    requires Safe(s) && Exists(s, b) && KeysOf(row) == KeysOf(s.bookings[b]) && row.user == s.bookings[b].user
    requires RowOk(row, t) && (s.tracks[b].Delivered? ==> t.Delivered?)
    requires t == s.tracks[b] || t.Closed? || (s.tracks[b].InCall? && t.Awaiting?)
    ensures Safe(Put(s, b, row, t))
  {
    hide RowOk, SoldOwned;
    assert BookingOk(s, b);
    SoldStaysOwned(s, Put(s, b, row, t), b);
    LocalStepIsSafe(s, Put(s, b, row, t), b);
  }

  /** The stores change on the seats of booking b only. */
  lemma OwnStepIsSafe(s: Sys, s': Sys, b: nat, row: Booking, t: Track)
    requires Safe(s) && Exists(s, b) && !s.tracks[b].Closed? && s' == Put(s, b, row, t).(st := s'.st) && Inv(s'.st)
    requires KeysOf(row) == KeysOf(s.bookings[b]) && row.user == s.bookings[b].user
    requires RowOk(row, t) && SeatsOk(s'.st, KeysOf(row), row.user, t)
    requires s'.st.rows.Keys == s.st.rows.Keys
    requires forall ks: set<SeatKey> :: KeysOf(row) !! ks ==> SameOn(s.st, s'.st, ks)
    requires forall k :: k in KeysOf(row) && k in s'.st.rows && s'.st.rows[k].status == Sold ==> t.Delivered?
    ensures Safe(s')
  {
    hide RowOk, SoldOwned, Inv, SeatsOk;
    forall k | k in s'.st.rows && s'.st.rows[k].status == Sold && k !in KeysOf(row)
      ensures s.st.rows[k].status == Sold
    {
      assert SameOn(s.st, s'.st, {k});
    }
    SoldStaysOwned(s, s', b);
    forall c: nat | Exists(s, c) && c != b && !s.tracks[c].Closed? ensures SameOn(s.st, s'.st, KeysOf(s.bookings[c])) {
      assert Separate(s, b, c);
    }
    LocalStepIsSafe(s, s', b);
  }

  // ----- settling

  lemma InCallIsAlone(s: Sys, b: nat)
    requires Safe(s) && Exists(s, b) && s.tracks[b].InCall?
    ensures RowOk(s.bookings[b], InCall) && !HeldByOther(s.st, KeysOf(s.bookings[b]), s.bookings[b].user)
    ensures forall k :: k in KeysOf(s.bookings[b]) ==> k in s.st.rows && s.st.rows[k].status == Held
  {
    assert BookingOk(s, b);
    HolderIsAlone(s.st, KeysOf(s.bookings[b]), s.bookings[b].user);
  }

  lemma ReleaseUpToElsewhere(st: Store, e: Id, ids: seq<Id>, u: Id, reason: Reason, reach: Reach, ks: set<SeatKey>)
    requires Keys(e, ids) !! ks
    ensures SameOn(st, ReleaseUpTo(st, e, ids, u, reason, reach), ks)
  {
    OverwriteElsewhere(st, Keys(e, ids), u, Available, reason, ks);
  }

  /** The cancellation of an unpaid booking, with a seat release that may throw on its way. */
  lemma UnpaidSafeIff(s: Sys, b: nat, reach: Reach)
    requires Safe(s) && Exists(s, b) && s.tracks[b].InCall?
    ensures var row := s.bookings[b];
            var s' := Put(s, b, row.(status := CancelledBooking), Closed)
                        .(st := ReleaseUpTo(s.st, row.event, SeatsOf(row), row.user, PaymentFailed, reach));
            Safe(s') <==> (reach.Committed? ==> KeysOf(row) !! s.st.locks.Keys)
  {
    hide Inv, HeldByOther, SoldOwned;
    var row := s.bookings[b];
    var row' := row.(status := CancelledBooking);
    var s' := Put(s, b, row', Closed)
                .(st := ReleaseUpTo(s.st, row.event, SeatsOf(row), row.user, PaymentFailed, reach));
    InCallIsAlone(s, b);
    ReleaseUpToKeepsInvIff(s.st, row.event, SeatsOf(row), row.user, PaymentFailed, reach);
    if Inv(s'.st) {
      assert SeatsOf(row') == SeatsOf(row);
      forall ks: set<SeatKey> | KeysOf(row) !! ks ensures SameOn(s.st, s'.st, ks) {
        ReleaseUpToElsewhere(s.st, row.event, SeatsOf(row), row.user, PaymentFailed, reach, ks);
      }
      OwnStepIsSafe(s, s', b, row', Closed);
    }
  }

  lemma {:induction false} ConcludeSafeIff(s: Sys, b: nat, outcome: PaymentOutcome, commits: bool, c: Cancelling)
    requires Safe(s) && Exists(s, b) && s.tracks[b].InCall?
    ensures Safe(Concluded(s, b, outcome, commits, c)) <==> Assumed(s, Conclude(b, outcome, commits, c))
  {
    hide Safe, ReleaseUpTo;
    var row := s.bookings[b];
    InCallIsAlone(s, b);
    var cancelled, confirmed := row.(status := CancelledBooking), row.(status := Confirmed);
    assert SeatsOf(cancelled) == SeatsOf(row) == SeatsOf(confirmed);
    if outcome.NotPaid? && c.firstSave {
      UnpaidSafeIff(s, b, c.release);
    } else if outcome.PaidOk? && commits {
      RowStepIsSafe(s, b, confirmed, Awaiting);
    } else if c.catchSave {
      RowStepIsSafe(s, b, cancelled, Closed);
    } else {
      assert s.bookings[b := row] == s.bookings;
      RowStepIsSafe(s, b, row, Closed);
    }
  }

  // ----- delivery

  lemma DeliveryKeepsSafe(s: Sys, b: nat)
    requires Safe(s) && Exists(s, b) && (s.tracks[b].Awaiting? || s.tracks[b].Delivered?)
    ensures Safe(Delivers(s, b))
  {
    hide SoldOwned;
    var row, s' := s.bookings[b], Delivers(s, b);
    assert BookingOk(s, b);
    HolderIsAlone(s.st, KeysOf(row), row.user);
    MarkAsSoldKeepsInvIff(s.st, row.event, SeatsOf(row), row.user);
    forall ks: set<SeatKey> | KeysOf(row) !! ks ensures SameOn(s.st, s'.st, ks) {
      OverwriteElsewhere(s.st, KeysOf(row), row.user, Sold, PaymentSuccess, ks);
    }
    OwnStepIsSafe(s, s', b, row, Delivered);
  }

  lemma {:induction false} DeliverySafeIff(s: Sys, b: nat)
    requires Safe(s) && Possible(s, DeliverSale(b))
    ensures Safe(Delivers(s, b)) <==> Assumed(s, DeliverSale(b))
  {
    hide SeatsOk, SoldOwned, AllIn;
    var row := s.bookings[b];
    assert BookingOk(s, b);
    if s.tracks[b].Closed? {
      assert s.bookings[b := row] == s.bookings && s.tracks[b := Closed] == s.tracks;
      SellSafeIff(s, row.event, SeatsOf(row), row.user);
    } else {
      DeliveryKeepsSafe(s, b);
    }
  }

  // ----- the seat release of a refund

  /** It is never called for a booking that is still in its `createBooking` call. */
  lemma PaidBackIsConfirmed(s: Sys, b: nat)
    requires Safe(s) && Possible(s, RefundRelease(b, RolledBack, false))
    ensures !s.tracks[b].InCall? && RowOk(s.bookings[b], s.tracks[b]) && KeysOf(s.bookings[b]) != {}
    ensures RowOk(s.bookings[b].(refund := Some(SeatsReleased)), Closed)
    ensures RowOk(s.bookings[b], Closed)
  {
    var row := s.bookings[b];
    assert BookingOk(s, b);
    assert SeatsOf(row.(refund := Some(SeatsReleased))) == SeatsOf(row);
    assert SeatKey(row.event, SeatsOf(row)[0]) in KeysOf(row);
  }

  /** What happens to the row. */
  function Released(row: Booking, saved: bool): Booking {
    if saved then row.(refund := Some(SeatsReleased)) else row
  }

  /** A delivered booking whose row goes on although the release was refused: its seats are SOLD for good. */
  lemma RefusedReleaseStrands(s: Sys, b: nat, k: SeatKey)
    requires Safe(s) && Exists(s, b) && s.tracks[b].Delivered? && k in KeysOf(s.bookings[b])
    ensures Stranded(Put(s, b, s.bookings[b].(refund := Some(SeatsReleased)), Closed), k)
  {
    var s' := Put(s, b, s.bookings[b].(refund := Some(SeatsReleased)), Closed);
    OpenSeats(s, b, k);
    forall c: nat | c != b && Exists(s, c) && s.tracks[c].Delivered? ensures k !in KeysOf(s.bookings[c]) {
      assert Separate(s, b, c);
    }
  }

  lemma RefusedReleaseSafeIff(s: Sys, b: nat, saved: bool)
    requires Safe(s) && Possible(s, RefundRelease(b, RolledBack, saved))
    ensures Safe(Releases(s, b, RolledBack, saved)) <==> Assumed(s, RefundRelease(b, RolledBack, saved))
  {
    hide Inv, SeatsOk, SoldOwned, RowOk;
    PaidBackIsConfirmed(s, b);
    var row := s.bookings[b];
    assert SeatsOf(Released(row, saved)) == SeatsOf(row);
    if !saved {
      assert s.bookings[b := row] == s.bookings && s.tracks[b := s.tracks[b]] == s.tracks;
    } else if s.tracks[b].Delivered? {
      var k :| k in KeysOf(row);
      RefusedReleaseStrands(s, b, k);
      StrandedIsNotSafe(Releases(s, b, RolledBack, saved), k);
    } else {
      RowStepIsSafe(s, b, Released(row, saved), Closed);
    }
  }

  lemma StrandedIsNotSafe(s: Sys, k: SeatKey)
    requires Stranded(s, k)
    ensures !Safe(s)
  {
  }

  lemma DeliveredReleaseKeepsSafe(s: Sys, b: nat, reach: Reach, saved: bool)
    requires Safe(s) && Possible(s, RefundRelease(b, reach, saved)) && s.tracks[b].Delivered? && !reach.RolledBack?
    ensures Safe(Releases(s, b, reach, saved))
  {
    hide Inv, SoldOwned, RowOk;
    var row, s' := s.bookings[b], Releases(s, b, reach, saved);
    assert BookingOk(s, b);
    PaidBackIsConfirmed(s, b);
    assert SeatsOf(Released(row, saved)) == SeatsOf(row);
    ReleaseSoldUpToInvIff(s.st, row.event, SeatsOf(row), reach);
    forall ks: set<SeatKey> | KeysOf(row) !! ks ensures SameOn(s.st, s'.st, ks) {
      ReleaseSoldElsewhere(s.st, row.event, SeatsOf(row), ks);
    }
    OwnStepIsSafe(s, s', b, Released(row, saved), Closed);
  }

  lemma ClosedReleaseSafeIff(s: Sys, b: nat, reach: Reach, saved: bool)
    requires Safe(s) && Possible(s, RefundRelease(b, reach, saved)) && s.tracks[b].Closed? && !reach.RolledBack?
    ensures Safe(Releases(s, b, reach, saved)) <==> AllIn(s.st, KeysOf(s.bookings[b]), Available)
  {
    hide Safe, ReleaseSoldUpTo, AllIn, RowOk;
    var row, s' := s.bookings[b], Releases(s, b, reach, saved);
    PaidBackIsConfirmed(s, b);
    assert SeatsOf(Released(row, saved)) == SeatsOf(row);
    ReleaseSoldSafeIff(s, row.event, SeatsOf(row), reach);
    var s1 := s.(st := ReleaseSoldUpTo(s.st, row.event, SeatsOf(row), reach));
    if Safe(s1) {
      RowStepIsSafe(s1, b, Released(row, saved), Closed);
    }
    if Safe(s') {
      RowStepIsSafe(s', b, row, Closed);
      assert Put(s', b, row, Closed).bookings == s1.bookings && Put(s', b, row, Closed).tracks == s1.tracks;
    }
  }

  lemma {:induction false} RefundReleaseSafeIff(s: Sys, b: nat, reach: Reach, saved: bool)
    requires Safe(s) && Possible(s, RefundRelease(b, reach, saved))
    ensures Safe(Releases(s, b, reach, saved)) <==> Assumed(s, RefundRelease(b, reach, saved))
  {
    hide Safe, Releases, AllIn;
    PaidBackIsConfirmed(s, b);
    if reach.RolledBack? {
      RefusedReleaseSafeIff(s, b, saved);
    } else if s.tracks[b].Delivered? {
      DeliveredReleaseKeepsSafe(s, b, reach, saved);
    } else if s.tracks[b].Closed? {
      ClosedReleaseSafeIff(s, b, reach, saved);
    } else {
      UndeliveredReleaseBreaks(s, b, reach, saved);
    }
  }

  /** The booking was cancelled before its sale was delivered: its seats are HELD, and are freed under the
      open hold. */
  lemma UndeliveredReleaseBreaks(s: Sys, b: nat, reach: Reach, saved: bool)
    requires Safe(s) && Exists(s, b) && s.tracks[b].Awaiting? && !reach.RolledBack?
    ensures !Inv(Releases(s, b, reach, saved).st) && !Safe(Releases(s, b, reach, saved))
  {
    hide Inv, SoldOwned;
    var row := s.bookings[b];
    assert BookingOk(s, b);
    assert SeatKey(row.event, SeatsOf(row)[0]) in KeysOf(row);
    ReleaseSoldUpToInvIff(s.st, row.event, SeatsOf(row), reach);
  }

  // ----- rows only

  lemma RefundRowsKeepSafe(s: Sys, step: Step)
    requires Safe(s) && Possible(s, step) && (step.Cancel? || step.RefundReply? || step.RefundDone? || step.Abandon?)
    ensures Safe(After(s, step))
  {
    hide Inv, SeatsOk, SoldOwned;
    var b := step.b;
    var s' := After(s, step);
    assert BookingOk(s, b);
    assert SeatsOf(s'.bookings[b]) == SeatsOf(s.bookings[b]);
    RowStepIsSafe(s, b, s'.bookings[b], s'.tracks[b]);
    assert s'.bookings == s.bookings[b := s'.bookings[b]] && s'.tracks == s.tracks[b := s'.tracks[b]];
    assert s' == Put(s, b, s'.bookings[b], s'.tracks[b]);
  }

  // ----- every step

  lemma InventorySafeIff(s: Sys, op: SeatInvariant.Op)
    requires Safe(s)
    ensures Safe(After(s, Inventory(op))) <==> Assumed(s, Inventory(op))
  {
    hide Safe, AllIn, SparesOpen, HeldByOther, ReleaseSeats, MarkAsSold, ReleaseSoldSeats;
    match op
    case OpRelease(e, ids, u, reason) => ReleaseSafeIff(s, e, ids, u, reason);
    case OpSell(e, ids, u) => SellSafeIff(s, e, ids, u);
    case OpReleaseSold(e, ids) => ReleaseSoldSafeIff(s, e, ids, Finished);
    case _ => QuietInventoryKeepsSafe(s, op);
  }

  /** A step that the code lets through keeps the invariant if and only if what is assumed of it holds. */
  lemma {:induction false} StepKeepsSafeIff(s: Sys, step: Step)
    requires Safe(s) && Possible(s, step)
    ensures Safe(After(s, step)) <==> Assumed(s, step)
  {
    hide Safe, Bookable, Concluded, Delivers, Releases, AllIn, ExpirySweep.Sweep;
    match step
    case Inventory(op) => InventorySafeIff(s, op);
    case Sweep => SweepSafeIff(s);
    case Order(u, e, ids) => OrderSafeIff(s, u, e, ids);
    case Conclude(b, outcome, commits, c) => ConcludeSafeIff(s, b, outcome, commits, c);
    case DeliverSale(b) => DeliverySafeIff(s, b);
    case RefundRelease(b, reach, saved) => RefundReleaseSafeIff(s, b, reach, saved);
    case _ => RefundRowsKeepSafe(s, step);
  }

  // ----- every run

  function Runs(s: Sys, steps: seq<Step>): Sys {
    if steps == [] then s else After(Runs(s, steps[..|steps| - 1]), steps[|steps| - 1])
  }

  ghost predicate Allowed(s: Sys, steps: seq<Step>) {
    steps != [] ==> Allowed(s, steps[..|steps| - 1]) && Enabled(Runs(s, steps[..|steps| - 1]), steps[|steps| - 1])
  }

  const NOTHING := Sys(Store(0, map[], [], map[], map[], map[]), [], [])

  lemma {:induction false} RunIsSafe(steps: seq<Step>)
    requires Allowed(NOTHING, steps)
    ensures Safe(Runs(NOTHING, steps))
  {
    hide Safe, After, Possible, Assumed;
    if steps == [] {
      NothingIsSafe();
    } else {
      RunIsSafe(steps[..|steps| - 1]);
      StepKeepsSafeIff(Runs(NOTHING, steps[..|steps| - 1]), steps[|steps| - 1]);
    }
  }

  lemma NothingIsSafe()
    ensures Safe(NOTHING)
  {
  }

  /** CONFIRMED, and its seats not released by a refund. */
  predicate Has(s: Sys, b: nat) {
    Exists(s, b) && (s.tracks[b].Awaiting? || s.tracks[b].Delivered?)
  }

  /** In every reachable state: bookings that are CONFIRMED and whose seats were not released share no seat;
      until the sale is delivered the seats are HELD by the booking's user, from then on they are SOLD; and
      no other seat is SOLD.  A booking that was not given its money back is one of these. */
  lemma {:induction false} NoSeatIsSoldTwice(steps: seq<Step>, s: Sys)
    requires Allowed(NOTHING, steps) && s == Runs(NOTHING, steps)
    ensures |s.tracks| == |s.bookings|
    ensures forall b: nat :: Exists(s, b) && Owns(s.bookings[b]) ==> Has(s, b)
    ensures forall b: nat, c: nat :: Has(s, b) && Has(s, c) && b != c ==> KeysOf(s.bookings[b]) !! KeysOf(s.bookings[c])
    ensures forall b: nat, k :: Has(s, b) && k in KeysOf(s.bookings[b]) ==>
              && k in s.st.rows
              && (s.tracks[b].Awaiting? ==> s.st.rows[k].status == Held && OwnHold(s.st.holds, k, s.bookings[b].user))
              && (s.tracks[b].Delivered? ==> s.st.rows[k].status == Sold)
    ensures forall k :: k in s.st.rows && s.st.rows[k].status == Sold ==>
              exists b: nat :: Has(s, b) && s.tracks[b].Delivered? && k in KeysOf(s.bookings[b])
  {
    hide Inv, Runs, Allowed;
    RunIsSafe(steps);
    forall b: nat | Exists(s, b) ensures BookingOk(s, b) {
    }
    forall b: nat, c: nat | Has(s, b) && Has(s, c) && b != c ensures KeysOf(s.bookings[b]) !! KeysOf(s.bookings[c]) {
      assert Separate(s, b, c);
    }
    forall k | k in s.st.rows && s.st.rows[k].status == Sold
      ensures exists b: nat :: Has(s, b) && s.tracks[b].Delivered? && k in KeysOf(s.bookings[b])
    {
      var b: nat :| SoldTo(s, k, b);
      assert Has(s, b);
    }
  }
}
