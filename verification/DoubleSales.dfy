/** How seats come to be sold twice, or stranded, where an assumption of NoDoubleSale fails: by runs that lead
    from any state in which some seats can be held. */
module DoubleSales {
  import opened Basics
  import opened SeatStore
  import opened SeatInvariant
  import opened BookingSaga
  import opened SalesModel
  import opened NoDoubleSale
  import ExpirySweep

  // ----- what happens when an assumption fails

  lemma NoLocksOnSold(st: Store, k: SeatKey)
    requires Inv(st) && k in st.rows && st.rows[k].status == Sold
    ensures k !in st.locks
  {
    forall j | j in st.locks ensures j != k {
      assert HeldBy(st.holds, j, st.locks[j].user, st.locks[j].expiresAt);
    }
  }

  /** The only live locks on a user's held seats are the user's own. */
  lemma LocksAreTheHolders(st: Store, ks: set<SeatKey>, u: Id, k: SeatKey)
    requires Inv(st) && k in ks && OwnHold(st.holds, k, u) && k in st.locks
    ensures st.locks[k].user == u
  {
    assert HeldBy(st.holds, k, st.locks[k].user, st.locks[k].expiresAt);
    assert OwnHold(st.holds, k, st.locks[k].user);
    OneOwner(st, k, u, st.locks[k].user);
  }

  /** The seats of a CONFIRMED booking can be held again once its user gave them up, or, when they are SOLD
      already, once anybody did. */
  lemma ReleasedCanBeHeld(s: Sys, b: nat, u: Id, reason: Reason)
    requires Safe(s) && Has(s, b) && (s.tracks[b].Delivered? || u == s.bookings[b].user)
    ensures var row := s.bookings[b];
            CanHold(ReleaseSeats(s.st, row.event, SeatsOf(row), u, reason), row.event, SeatsOf(row))
  {
    var row := s.bookings[b];
    assert BookingOk(s, b);
    forall k | k in KeysOf(row) && k in s.st.locks ensures s.st.locks[k].user == u {
      if s.tracks[b].Delivered? {
        NoLocksOnSold(s.st, k);
      } else {
        LocksAreTheHolders(s.st, KeysOf(row), u, k);
      }
    }
  }

  lemma HeldCanBeBooked(st: Store, e: Id, ids: seq<Id>, v: Id, elapsed: nat)
    requires ids != [] && CanHold(st, e, ids)
    ensures Bookable(HoldSeats(st, e, ids, v, elapsed), v, e, ids)
  {
    forall s | s in ids ensures SeatKey(e, s) in Keys(e, ids) {
    }
  }

  lemma OrderedAndPaid(s: Sys, v: Id, e: Id, ids: seq<Id>, c: Cancelling)
    requires |s.bookings| == |s.tracks|
    ensures var n := |s.bookings|;
            var end := After(After(s, Order(v, e, ids)), Conclude(n, PaidOk, true, c));
            && |end.bookings| == n + 1 && (forall d: nat :: d < n ==> end.bookings[d] == s.bookings[d])
            && Owns(end.bookings[n]) && KeysOf(end.bookings[n]) == Keys(e, ids)
  {
    var row := NewBooking(s.st, v, e, ids);
    assert SeatsOf(row.(status := Confirmed)) == ids;
  }

  /** The release endpoint leads to a second sale: before the delivery when the booking's user gives the
      seats up or the sweep finds the hold expired, and after it when anybody asks.  Then any user can hold
      them, pass every check of `createBooking`, and be CONFIRMED, too. */
  lemma {:induction false} GivenUpSeatsAreResold(s: Sys, b: nat, u: Id, reason: Reason, v: Id, elapsed: nat,
                                                 c: Cancelling)
    requires Safe(s) && Has(s, b) && (s.tracks[b].Delivered? || u == s.bookings[b].user)
    ensures var row := s.bookings[b];
            var e, ids := row.event, SeatsOf(row);
            var freed := After(s, Inventory(OpRelease(e, ids, u, reason)));
            var held := After(freed, Inventory(OpHold(e, ids, v, elapsed)));
            var end := After(After(held, Order(v, e, ids)), Conclude(|s.bookings|, PaidOk, true, c));
            && Inv(freed.st) && Possible(held, Order(v, e, ids)) && |end.bookings| == |s.bookings| + 1
            && end.bookings[b] == row && Owns(end.bookings[|s.bookings|])
            && KeysOf(row) == KeysOf(end.bookings[|s.bookings|]) != {}
  {
    hide Inv, CanHold, Bookable, SoldOwned, HoldSeats, ReleaseSeats, Settle, NewBooking;
    var row := s.bookings[b];
    var e, ids := row.event, SeatsOf(row);
    var freed := ReleaseSeats(s.st, e, ids, u, reason);
    assert BookingOk(s, b);
    ReleaseOfOwnKeepsInv(s, b, u, reason);
    ReleasedCanBeHeld(s, b, u, reason);
    HeldCanBeBooked(freed, e, ids, v, elapsed);
    OrderedAndPaid(s.(st := HoldSeats(freed, e, ids, v, elapsed)), v, e, ids, c);
    assert SeatKey(e, ids[0]) in KeysOf(row);
  }

  lemma ReleaseOfOwnKeepsInv(s: Sys, b: nat, u: Id, reason: Reason)
    requires Safe(s) && Has(s, b) && (s.tracks[b].Delivered? || u == s.bookings[b].user)
    ensures Inv(ReleaseSeats(s.st, s.bookings[b].event, SeatsOf(s.bookings[b]), u, reason))
  {
    var row := s.bookings[b];
    assert BookingOk(s, b);
    HolderIsAlone(s.st, KeysOf(row), u);
    ReleaseKeepsInvIff(s.st, row.event, SeatsOf(row), u, reason);
  }

  /** Ordering changes nothing that `createBooking` checks: the same user can order the same held seats
      again at once. */
  lemma {:induction false} OrderedTwice(s: Sys, u: Id, e: Id, ids: seq<Id>)
    requires Safe(s) && Enabled(s, Order(u, e, ids))
    ensures var once := After(s, Order(u, e, ids));
            Safe(once) && Possible(once, Order(u, e, ids)) && !Safe(After(once, Order(u, e, ids)))
  {
    hide Safe, Bookable;
    var once := After(s, Order(u, e, ids));
    OrderSafeIff(s, u, e, ids);
    OrderSafeIff(once, u, e, ids);
    SharesWithNew(s, u, e, ids);
  }

  lemma SharesWithNew(s: Sys, u: Id, e: Id, ids: seq<Id>)
    requires Safe(s) && Bookable(s.st, u, e, ids)
    ensures !Assumed(After(s, Order(u, e, ids)), Order(u, e, ids))
  {
    hide Inv, SoldOwned;
    var once, n := After(s, Order(u, e, ids)), |s.bookings|;
    OrderIsOk(s, u, e, ids);
    assert SeatKey(e, ids[0]) in Keys(e, ids);
    assert Exists(once, n) && Engaged(once.tracks[n]) && once.bookings[n].user == u;
  }

  // ----- runs

  ghost predicate Reachable(s: Sys) {
    exists steps :: Allowed(NOTHING, steps) && Runs(NOTHING, steps) == s
  }

  /** A run leads to where the code lets this step through, and the step breaks the invariant. */
  ghost predicate CanBreak(s: Sys, step: Step) {
    Reachable(s) && Possible(s, step) && !Safe(After(s, step))
  }

  lemma ReachNext(s: Sys, step: Step)
    requires Reachable(s) && Enabled(s, step)
    ensures Reachable(After(s, step))
  {
    var steps :| Allowed(NOTHING, steps) && Runs(NOTHING, steps) == s;
    assert (steps + [step])[..|steps|] == steps;
    assert Allowed(NOTHING, steps + [step]) && Runs(NOTHING, steps + [step]) == After(s, step);
  }

  lemma ReachableIsSafe(s: Sys)
    requires Reachable(s)
    ensures Safe(s)
  {
    var steps :| Allowed(NOTHING, steps) && Runs(NOTHING, steps) == s;
    RunIsSafe(steps);
  }

  /** Bookings before b are untouched between s and s'. */
  predicate EarlierSame(s: Sys, s': Sys, b: nat) {
    && b <= |s.bookings| && b <= |s'.bookings| && b <= |s.tracks| && b <= |s'.tracks|
    && s'.bookings[..b] == s.bookings[..b] && s'.tracks[..b] == s.tracks[..b]
  }

  lemma HeldCanBeOrdered(s: Sys, u: Id, e: Id, ids: seq<Id>)
    requires Safe(s) && ids != [] && CanHold(s.st, e, ids)
    ensures Enabled(After(s, Inventory(OpHold(e, ids, u, 0))), Order(u, e, ids))
  {
    HeldCanBeBooked(s.st, e, ids, u, 0);
    forall b: nat | Exists(s, b) && Engaged(s.tracks[b]) ensures Keys(e, ids) !! KeysOf(s.bookings[b]) {
      assert BookingOk(s, b);
    }
  }

  /** Booking b is u's, of these seats. */
  predicate IsFor(s: Sys, b: nat, u: Id, e: Id, ids: seq<Id>) {
    Exists(s, b) && s.bookings[b].user == u && s.bookings[b].event == e && SeatsOf(s.bookings[b]) == ids
        && s.bookings[b].refund.None?
  }

  lemma HoldReached(s: Sys, u: Id, e: Id, ids: seq<Id>) returns (held: Sys)
    requires Reachable(s) && ids != [] && CanHold(s.st, e, ids)
    ensures Reachable(held) && held == s.(st := HoldSeats(s.st, e, ids, u, 0)) && Enabled(held, Order(u, e, ids))
  {
    hide Safe, CanHold, Bookable, HoldSeats;
    ReachableIsSafe(s);
    held := After(s, Inventory(OpHold(e, ids, u, 0)));
    ReachNext(s, Inventory(OpHold(e, ids, u, 0)));
    HeldCanBeOrdered(s, u, e, ids);
  }

  lemma Orders(s: Sys, u: Id, e: Id, ids: seq<Id>) returns (s': Sys)
    requires Reachable(s) && ids != [] && CanHold(s.st, e, ids)
    ensures Reachable(s') && |s'.bookings| == |s'.tracks| == |s.bookings| + 1 && EarlierSame(s, s', |s.bookings|)
    ensures IsFor(s', |s.bookings|, u, e, ids) && s'.tracks[|s.bookings|].InCall?
    ensures forall k :: k in Keys(e, ids) ==> k in s'.st.locks && s'.st.locks[k].user == u
    ensures ':' !in e && ExpirySweep.ColonFree(s.st.holds) ==> ExpirySweep.ColonFree(s'.st.holds)
  {
    hide Reachable, Enabled, CanHold, HoldSeats;
    var held := HoldReached(s, u, e, ids);
    HeldLocks(s.st, u, e, ids);
    s' := After(held, Order(u, e, ids));
    ReachNext(held, Order(u, e, ids));
    BookingTracked(s);
    assert SeatsOf(NewBooking(held.st, u, e, ids)) == ids;
  }

  lemma BookingTracked(s: Sys)
    requires Reachable(s)
    ensures |s.tracks| == |s.bookings|
  {
    ReachableIsSafe(s);
  }

  lemma HeldLocks(st: Store, u: Id, e: Id, ids: seq<Id>)
    requires CanHold(st, e, ids)
    ensures var held := HoldSeats(st, e, ids, u, 0);
            && (forall k :: k in Keys(e, ids) ==> k in held.locks && held.locks[k].user == u)
            && (':' !in e && ExpirySweep.ColonFree(st.holds) ==> ExpirySweep.ColonFree(held.holds))
  {
    forall h | h in HoldSeats(st, e, ids, u, 0).holds ensures h in st.holds || h.key.event == e {
    }
  }

  lemma Pays(s: Sys, b: nat, u: Id, e: Id, ids: seq<Id>) returns (s': Sys)
    requires Reachable(s) && IsFor(s, b, u, e, ids) && s.tracks[b].InCall?
    ensures Reachable(s') && |s'.bookings| == |s.bookings| && |s'.tracks| == |s.tracks| && EarlierSame(s, s', b)
    ensures IsFor(s', b, u, e, ids) && s'.tracks[b].Awaiting? && s'.bookings[b].status == Confirmed
    ensures s'.st == s.st
  {
    hide Reachable;
    var row := s.bookings[b];
    assert SeatsOf(row.(status := Confirmed)) == ids;
    s' := After(s, Conclude(b, PaidOk, true, Cancelling(true, Finished, true, true)));
    ReachNext(s, Conclude(b, PaidOk, true, Cancelling(true, Finished, true, true)));
  }

  lemma PaysAndDelivers(s: Sys, b: nat, u: Id, e: Id, ids: seq<Id>) returns (s': Sys)
    requires Reachable(s) && IsFor(s, b, u, e, ids) && s.tracks[b].InCall?
    requires forall k :: k in Keys(e, ids) && k in s.st.locks ==> s.st.locks[k].user == u
    ensures Reachable(s') && |s'.bookings| == |s.bookings| && |s'.tracks| == |s.tracks| && EarlierSame(s, s', b)
    ensures IsFor(s', b, u, e, ids) && s'.tracks[b].Delivered? && s'.bookings[b].status == Confirmed
    ensures Keys(e, ids) !! s'.st.locks.Keys
  {
    hide Reachable, CloseHolds, Restatus, PutAvail;
    var paid := Pays(s, b, u, e, ids);
    s' := After(paid, DeliverSale(b));
    ReachNext(paid, DeliverSale(b));
  }

  /** Seats that can be held can be bought: the new booking is delivered, and nothing locks its seats. */
  lemma Buys(s: Sys, u: Id, e: Id, ids: seq<Id>) returns (s': Sys)
    requires Reachable(s) && ids != [] && CanHold(s.st, e, ids)
    ensures Reachable(s') && |s'.bookings| == |s'.tracks| == |s.bookings| + 1 && EarlierSame(s, s', |s.bookings|)
    ensures IsFor(s', |s.bookings|, u, e, ids) && s'.tracks[|s.bookings|].Delivered?
    ensures s'.bookings[|s.bookings|].status == Confirmed
    ensures Keys(e, ids) !! s'.st.locks.Keys
  {
    hide Reachable, CanHold;
    var ordered := Orders(s, u, e, ids);
    s' := PaysAndDelivers(ordered, |s.bookings|, u, e, ids);
  }

  /** A delivered booking can be refunded: its seats are back on sale, whether that is saved or not. */
  lemma GivesBack(s: Sys, b: nat, key: Id, saved: bool) returns (s': Sys)
    requires Reachable(s) && Exists(s, b) && s.tracks[b].Delivered? && s.bookings[b].status == Confirmed
    requires s.bookings[b].refund.None?
    ensures Reachable(s') && |s'.bookings| == |s.bookings| && Exists(s', b) && s'.tracks[b].Closed?
    ensures KeysOf(s'.bookings[b]) == KeysOf(s.bookings[b]) && s'.bookings[b].status == Confirmed
    ensures s'.bookings[b].refund == Some(if saved then SeatsReleased else PaymentRefunded)
    ensures s'.st == ReleaseSoldSeats(s.st, s.bookings[b].event, SeatsOf(s.bookings[b]))
  {
    hide Reachable;
    var row := s.bookings[b];
    var paidBack := PaidBack(s, b, key);
    s' := After(paidBack, RefundRelease(b, Finished, saved));
    ReachNext(paidBack, RefundRelease(b, Finished, saved));
    assert SeatsOf(s'.bookings[b]) == SeatsOf(row);
    BookingTracked(s);
  }

  /** A CONFIRMED booking can be cancelled and paid back, whether its sale was delivered or not. */
  lemma PaidBack(s: Sys, b: nat, key: Id) returns (s': Sys)
    requires Reachable(s) && Has(s, b) && s.bookings[b].status == Confirmed && s.bookings[b].refund.None?
    ensures Reachable(s') && s'.st == s.st && s'.tracks == s.tracks && |s'.bookings| == |s.bookings|
    ensures s'.bookings[b] == s.bookings[b].(refund := Some(PaymentRefunded), refundKey := Some(key))
    ensures SeatsOf(s'.bookings[b]) == SeatsOf(s.bookings[b])
  {
    hide Reachable;
    var asked := After(s, Cancel(b, key));
    ReachNext(s, Cancel(b, key));
    s' := After(asked, RefundReply(b, true));
    ReachNext(asked, RefundReply(b, true));
    assert asked.tracks[b := asked.tracks[b]] == asked.tracks;
  }

  lemma FreedCanBeHeld(st: Store, e: Id, ids: seq<Id>)
    requires Distinct(ids) && Keys(e, ids) <= st.rows.Keys && Keys(e, ids) !! st.locks.Keys
    ensures CanHold(ReleaseSoldSeats(st, e, ids), e, ids)
  {
  }

  /** Wherever seats can be held, a run leads to a booking that is cancelled and paid back before its sale was
      delivered; the seat release of its refund then frees seats under an open hold. */
  lemma {:induction false} CancelledBeforeDelivery(s: Sys, u: Id, e: Id, ids: seq<Id>, key: Id)
    returns (end: Sys, b: nat)
    requires Reachable(s) && ids != [] && CanHold(s.st, e, ids)
    ensures CanBreak(end, RefundRelease(b, Finished, true))
  {
    hide Reachable, CanHold, Safe;
    b := |s.bookings|;
    var ordered := Orders(s, u, e, ids);
    var paid := Pays(ordered, b, u, e, ids);
    end := PaidBack(paid, b, key);
    ReachableIsSafe(end);
    UndeliveredReleaseBreaks(end, b, Finished, true);
  }

  /** A run leads to a refunded booking, whose seat release was not saved, and a delivered one of the same
      seats; there the refund's seat release, driven again, takes them from the second. */
  lemma {:induction false} ResoldSeatsCanBeTaken(s: Sys, u: Id, v: Id, e: Id, ids: seq<Id>, key: Id)
    returns (end: Sys, b: nat, c: nat)
    requires Reachable(s) && ids != [] && CanHold(s.st, e, ids)
    ensures Has(end, c) && KeysOf(end.bookings[c]) == Keys(e, ids) && b != c
    ensures CanBreak(end, RefundRelease(b, Finished, true))
  {
    hide Reachable, Safe, CanHold;
    b, c := |s.bookings|, |s.bookings| + 1;
    var refunded := BuysAndGivesBack(s, u, e, ids, key, false);
    end := Buys(refunded, v, e, ids);
    SameEarlier(refunded, end, b, c);
    ReachableIsSafe(end);
    assert SeatKey(e, ids[0]) in Keys(e, ids);
    OpenSeats(end, c, SeatKey(e, ids[0]));
    RefundReleaseSafeIff(end, b, Finished, true);
  }

  lemma SameEarlier(s: Sys, s': Sys, b: nat, c: nat)
    requires EarlierSame(s, s', c) && b < c
    ensures s'.bookings[b] == s.bookings[b] && s'.tracks[b] == s.tracks[b]
  {
    assert s'.bookings[b] == s'.bookings[..c][b] == s.bookings[..c][b];
    assert s'.tracks[b] == s'.tracks[..c][b] == s.tracks[..c][b];
  }

  lemma BuysAndGivesBack(s: Sys, u: Id, e: Id, ids: seq<Id>, key: Id, saved: bool) returns (s': Sys)
    requires Reachable(s) && ids != [] && CanHold(s.st, e, ids)
    ensures Reachable(s') && |s'.bookings| == |s'.tracks| == |s.bookings| + 1 && s'.tracks[|s.bookings|].Closed?
    ensures KeysOf(s'.bookings[|s.bookings|]) == Keys(e, ids) && s'.bookings[|s.bookings|].status == Confirmed
    ensures s'.bookings[|s.bookings|].refund == Some(if saved then SeatsReleased else PaymentRefunded)
    ensures CanHold(s'.st, e, ids)
  {
    hide Reachable, CanHold;
    var bought := Buys(s, u, e, ids);
    BoughtSeatsExist(bought, |s.bookings|);
    s' := GivesBack(bought, |s.bookings|, key, saved);
    BookingTracked(s');
    HeldIdsDistinct(s.st, e, ids);
    FreedCanBeHeld(bought.st, e, ids);
  }

  lemma HeldIdsDistinct(st: Store, e: Id, ids: seq<Id>)
    requires CanHold(st, e, ids)
    ensures Distinct(ids)
  {
  }

  lemma BoughtSeatsExist(s: Sys, b: nat)
    requires Reachable(s) && Exists(s, b) && s.tracks[b].Delivered?
    ensures KeysOf(s.bookings[b]) <= s.st.rows.Keys
  {
    ReachableIsSafe(s);
    assert BookingOk(s, b);
  }

  /** A run leads to a refunded booking whose seats are back on sale; there a late delivery of its sale
      strands them. */
  lemma {:induction false} FreedSeatsCanBeStranded(s: Sys, u: Id, e: Id, ids: seq<Id>, key: Id)
    returns (end: Sys, b: nat)
    requires Reachable(s) && ids != [] && CanHold(s.st, e, ids)
    ensures CanBreak(end, DeliverSale(b))
    ensures forall k :: k in Keys(e, ids) ==> Stranded(After(end, DeliverSale(b)), k)
  {
    hide Reachable, Safe, Stranded, CanHold;
    b := |s.bookings|;
    end := BuysAndGivesBack(s, u, e, ids, key, true);
    ReachableIsSafe(end);
    forall k | k in Keys(e, ids) ensures Stranded(After(end, DeliverSale(b)), k) {
      FreeSeatIsStranded(end, b, e, ids, k);
    }
    assert SeatKey(e, ids[0]) in Keys(e, ids);
    StrandedIsNotSafe(After(end, DeliverSale(b)), SeatKey(e, ids[0]));
  }

  lemma FreeSeatIsStranded(s: Sys, b: nat, e: Id, ids: seq<Id>, k: SeatKey)
    requires Safe(s) && Exists(s, b) && s.tracks[b].Closed? && KeysOf(s.bookings[b]) == Keys(e, ids)
    requires CanHold(s.st, e, ids) && k in Keys(e, ids)
    ensures Stranded(After(s, DeliverSale(b)), k)
  {
    hide Safe, Stranded;
    NewlySoldIsStranded(s, After(s, DeliverSale(b)), k);
  }

  /** A run leads to a refunded booking and another user's order of the same seats, under way; there a late
      delivery of the first sale makes the seats SOLD before the second booking is paid. */
  lemma {:induction false} ResoldSeatsCanBeMarkedSold(s: Sys, u: Id, v: Id, e: Id, ids: seq<Id>, key: Id)
    returns (end: Sys, b: nat, c: nat)
    requires Reachable(s) && ids != [] && CanHold(s.st, e, ids)
    ensures IsFor(end, c, v, e, ids) && end.tracks[c].InCall? && b != c && CanBreak(end, DeliverSale(b))
    ensures forall k :: k in Keys(e, ids) ==>
              k in end.st.rows && After(end, DeliverSale(b)).st.rows[k].status == Sold
  {
    hide Reachable, Safe, CanHold;
    b, c := |s.bookings|, |s.bookings| + 1;
    var refunded := BuysAndGivesBack(s, u, e, ids, key, true);
    end := Orders(refunded, v, e, ids);
    SameEarlier(refunded, end, b, c);
    ReachableIsSafe(end);
    forall k | k in Keys(e, ids) ensures k in end.st.rows && end.st.rows[k].status == Held {
      OpenSeats(end, c, k);
    }
    assert SeatKey(e, ids[0]) in Keys(e, ids);
    DeliverySafeIff(end, b);
  }

  // ----- and one for each of the other assumptions

  /** Seats that can be held can be marked as sold to nobody. */
  lemma FreeSeatsCanBeSold(s: Sys, e: Id, ids: seq<Id>, u: Id)
    requires Reachable(s) && ids != [] && CanHold(s.st, e, ids)
    ensures CanBreak(s, Inventory(OpSell(e, ids, u)))
  {
    hide Reachable, Safe;
    ReachableIsSafe(s);
    assert SeatKey(e, ids[0]) in Keys(e, ids);
    SellSafeIff(s, e, ids, u);
  }

  /** Seats that were sold can be released by anybody, by both ways of releasing. */
  lemma {:induction false} SoldSeatsCanBeReleased(s: Sys, u: Id, e: Id, ids: seq<Id>, v: Id, reason: Reason)
    returns (end: Sys)
    requires Reachable(s) && ids != [] && CanHold(s.st, e, ids)
    ensures CanBreak(end, Inventory(OpRelease(e, ids, v, reason))) && CanBreak(end, Inventory(OpReleaseSold(e, ids)))
  {
    hide Reachable, Safe, CanHold;
    end := Buys(s, u, e, ids);
    ReachableIsSafe(end);
    assert SeatKey(e, ids[0]) in Keys(e, ids);
    OpenSeats(end, |s.bookings|, SeatKey(e, ids[0]));
    ReleaseSafeIff(end, e, ids, v, reason);
    ReleaseSoldSafeIff(end, e, ids, Finished);
  }

  /** Held seats that were ordered can be ordered again. */
  lemma OrderCanBeRepeated(s: Sys, u: Id, e: Id, ids: seq<Id>) returns (end: Sys)
    requires Reachable(s) && ids != [] && CanHold(s.st, e, ids)
    ensures CanBreak(end, Order(u, e, ids))
  {
    hide Reachable, Safe, CanHold, Bookable;
    var held := HoldReached(s, u, e, ids);
    ReachableIsSafe(held);
    end := After(held, Order(u, e, ids));
    ReachNext(held, Order(u, e, ids));
    OrderedTwice(held, u, e, ids);
  }

  /** The hold of a booking under way can expire, and a sweep then frees its seats. */
  lemma HoldCanExpire(s: Sys, u: Id, e: Id, ids: seq<Id>) returns (end: Sys)
    requires Reachable(s) && ids != [] && CanHold(s.st, e, ids) && ExpirySweep.ColonFree(s.st.holds) && ':' !in e
    ensures CanBreak(end, Sweep)
  {
    hide Reachable, Safe, CanHold;
    var b, k := |s.bookings|, SeatKey(e, ids[0]);
    var ordered := Orders(s, u, e, ids);
    ReachableIsSafe(ordered);
    assert k in Keys(e, ids);
    var i := ItsHold(ordered, b, k);
    var hold := ordered.st.holds[i];
    var d: nat := if hold.expiresAt < ordered.st.now then 0 else hold.expiresAt - ordered.st.now + 1;
    end := After(ordered, Inventory(OpTick(d)));
    ReachNext(ordered, Inventory(OpTick(d)));
    ReachableIsSafe(end);
    assert hold in end.st.holds && ExpirySweep.IsExpired(hold, end.st.now);
    assert k in ExpirySweep.ExpiredKeys(end.st);
    SweepSafeIff(end);
  }

  lemma ItsHold(s: Sys, b: nat, k: SeatKey) returns (i: nat)
    requires Safe(s) && Exists(s, b) && Engaged(s.tracks[b]) && k in KeysOf(s.bookings[b])
    ensures i < |s.st.holds| && Open(s.st.holds[i], k)
  {
    assert BookingOk(s, b);
    i :| 0 <= i < |s.st.holds| && Open(s.st.holds[i], k) && s.st.holds[i].user == s.bookings[b].user;
  }

  /** The release of an unpaid booking's seats can commit without deleting the locks. */
  lemma LocksCanBeLeft(s: Sys, u: Id, e: Id, ids: seq<Id>) returns (end: Sys, b: nat)
    requires Reachable(s) && ids != [] && CanHold(s.st, e, ids)
    ensures CanBreak(end, Conclude(b, NotPaid, false, Cancelling(true, Committed, false, true)))
  {
    hide Reachable, Safe, CanHold;
    b := |s.bookings|;
    end := Orders(s, u, e, ids);
    ReachableIsSafe(end);
    assert SeatKey(e, ids[0]) in Keys(e, ids);
    ConcludeSafeIff(end, b, NotPaid, false, Cancelling(true, Committed, false, true));
  }

  /** The seat release of a refund can be refused, and the refund goes on. */
  lemma ReleaseCanBeRefused(s: Sys, u: Id, e: Id, ids: seq<Id>, key: Id) returns (end: Sys, b: nat)
    requires Reachable(s) && ids != [] && CanHold(s.st, e, ids)
    ensures CanBreak(end, RefundRelease(b, RolledBack, true))
  {
    hide Reachable, Safe, CanHold;
    b := |s.bookings|;
    var bought := Buys(s, u, e, ids);
    end := PaidBack(bought, b, key);
    ReachableIsSafe(end);
    RefundReleaseSafeIff(end, b, RolledBack, true);
  }

  /** A concrete start: an event with one seat. */
  lemma OneSeatCanBeHeld(d: Detail)
    ensures var s := After(NOTHING, Inventory(OpCreate("e", [NewSeat("s", d)])));
            Reachable(s) && CanHold(s.st, "e", ["s"])
  {
    assert Allowed(NOTHING, []) && Runs(NOTHING, []) == NOTHING;
    ReachNext(NOTHING, Inventory(OpCreate("e", [NewSeat("s", d)])));
    assert SeatIds([NewSeat("s", d)]) == ["s"];
  }
}
