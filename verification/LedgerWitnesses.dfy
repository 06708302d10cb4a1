/** Runs of the ledger that lead to where its agreement with the bookings breaks. */
module LedgerWitnesses {
  import opened Basics
  import opened SeatStore
  import opened BookingSaga
  import opened MoneyLedger
  import Payments

  /** One seat for 5, held and locked by a user. */
  function OneSeat(): Store {
    var k := SeatKey("e", "s");
    Store(0, map[k := Row(Held, Detail("A", 5))], [], map[k := Lock("u", 100)], map[], map[])
  }

  lemma OneSeatIsBookable()
    ensures Bookable(OneSeat(), "u", "e", ["s"]) && ItemTotal(ItemsFor(OneSeat().rows, "e", ["s"])) == 5
  {
    hide Bookable, OneSeat, ItemsFor;
    TheSeat();
    LockedSeatIsBookable(OneSeat(), "u", "e", "s");
    OneItemTotal(OneSeat().rows, "e", "s");
  }

  lemma TheSeat()
    ensures var st, k := OneSeat(), SeatKey("e", "s");
            && k in st.rows && st.rows[k].status == Held && st.rows[k].detail.price == 5
            && k in st.locks && st.locks[k].user == "u"
  {
  }

  lemma LockedSeatIsBookable(st: Store, u: Id, e: Id, seat: Id)
    requires var k := SeatKey(e, seat);
             k in st.rows && st.rows[k].status == Held && k in st.locks && st.locks[k].user == u
    ensures Bookable(st, u, e, [seat])
  {
  }

  lemma OneItemTotal(rows: map<SeatKey, Row>, e: Id, seat: Id)
    requires SeatKey(e, seat) in rows
    ensures ItemTotal(ItemsFor(rows, e, [seat])) == rows[SeatKey(e, seat)].detail.price
  {
    var item := Item(seat, rows[SeatKey(e, seat)].detail.price);
    assert ItemsFor(rows, e, [seat]) == [] + [item];
    SumSnoc([], item, (it: Item) => it.price);
  }

  ghost predicate Reachable(l: Ledger) {
    exists ops :: Allowed(Opening(OneSeat()), ops) && Run(Opening(OneSeat()), ops) == l
  }

  lemma ReachNext(l: Ledger, op: Op)
    requires Reachable(l) && Enabled(l, op)
    ensures Reachable(Apply(l, op))
  {
    hide Enabled, Apply;
    var ops :| Allowed(Opening(OneSeat()), ops) && Run(Opening(OneSeat()), ops) == l;
    assert (ops + [op])[..|ops|] == ops;
    assert Allowed(Opening(OneSeat()), ops + [op]) && Run(Opening(OneSeat()), ops + [op]) == Apply(l, op);
  }

  lemma ReachableAgrees(l: Ledger)
    requires Reachable(l)
    ensures Inv(l)
  {
    hide Inv;
    var ops :| Allowed(Opening(OneSeat()), ops) && Run(Opening(OneSeat()), ops) == l;
    RunKeepsInv(OneSeat(), ops);
  }

  /** The booking of the seat, as far as this run is concerned. */
  predicate First(l: Ledger, stage: Stage, status: BookingStatus, refund: Option<RefundState>) {
    && |l.traces| == |l.w.bookings| == 1
    && l.traces[0].stage == stage && l.w.bookings[0].status == status && l.w.bookings[0].refund == refund
    && (refund.None? ==> l.w.bookings[0].refundKey.None? && l.w.pay.refunds == [])
    && l.w.bookings[0].total == 5 && l.w.seats == OneSeat()
  }

  lemma Placed() returns (l: Ledger)
    ensures Reachable(l) && First(l, ToPay("k"), PendingBooking, None) && l.w.pay == Payments.Db([], [], 0)
  {
    OneSeatIsBookable();
    var start := Opening(OneSeat());
    assert Allowed(start, []) && Run(start, []) == start;
    l := Apply(start, Place("u", "e", ["s"], "k"));
    ReachNext(start, Place("u", "e", ["s"], "k"));
  }

  lemma Paid() returns (l: Ledger)
    ensures Reachable(l) && First(l, ToConfirm, PendingBooking, None)
    ensures l.w.pay == Payments.Db([Payments.Payment(0, "k", 5, Payments.Succeeded)], [], 5)
  {
    hide Reachable;
    var placed := Placed();
    l := Apply(placed, Pay(0, true, Payments.Accepted));
    ReachNext(placed, Pay(0, true, Payments.Accepted));
  }

  lemma Cancelled() returns (l: Ledger)
    ensures Reachable(l) && First(l, Stage.Placed, Confirmed, Some(RefundInitiated))
  {
    hide Reachable;
    var paid := Paid();
    var op := Conclude(0, true, Cancelling(true, Finished, true, true));
    var confirmed := Apply(paid, op);
    ReachNext(paid, op);
    l := Apply(confirmed, Cancel(0, "r"));
    ReachNext(confirmed, Cancel(0, "r"));
  }

  /** A charge that the gateway accepts and the payment service cannot save: the money of a booking that goes
      on to be cancelled stays with the gateway. */
  lemma {:induction false} UnsavedChargeIsKept() returns (l: Ledger)
    ensures Reachable(l) && Exists(l, 0) && l.traces[0].stage.ToPay?
    ensures var l' := Pays(l, 0, true, Payments.Unsaved);
            |l'.traces| == |l'.w.bookings| && l'.w.pay.net != DueTotal(l') && l'.traces[0].stage == ToCancel(false)
  {
    hide Reachable, Inv;
    l := Placed();
    TakingsAgree(l);
    ChargeKeepsAgreementIff(l, 0, true, Payments.Unsaved);
  }

  lemma TakingsAgree(l: Ledger)
    requires Reachable(l)
    ensures |l.traces| == |l.w.bookings| && l.w.pay.net == DueTotal(l)
  {
    ReachableAgrees(l);
  }

  /** A second booking under the key of the first goes on to be confirmed, and nothing is charged. */
  lemma {:induction false} ReusedKeyIsNotCharged() returns (l: Ledger)
    ensures Reachable(l) && Bookable(l.w.seats, "u", "e", ["s"])
    ensures var placed := Apply(l, Place("u", "e", ["s"], "k"));
            && Exists(placed, 1) && placed.traces[1].stage == ToPay("k")
            && var l' := Pays(placed, 1, true, Payments.Accepted);
               && |l'.traces| == |l'.w.bookings| && l'.traces[1].stage.ToConfirm?
               && l'.w.pay.net == l.w.pay.net != DueTotal(l')
  {
    hide Reachable, Inv, Bookable;
    l := Paid();
    OneSeatIsBookable();
    TakingsAgree(l);
    var placed := Apply(l, Place("u", "e", ["s"], "k"));
    PlacingIsFree(l, "u", "e", ["s"], "k");
    ChargeKeepsAgreementIff(placed, 1, true, Payments.Accepted);
  }

  lemma PlacingIsFree(l: Ledger, u: Id, e: Id, ids: seq<Id>, key: Id)
    requires |l.traces| == |l.w.bookings|
    ensures DueTotal(Apply(l, Place(u, e, ids, key))) == DueTotal(l)
  {
    var l' := Apply(l, Place(u, e, ids, key));
    var n := |l.traces|;
    assert Recs(l')[..n] == Recs(l) && Recs(l') == Recs(l) + [Recs(l')[n]];
    SumSnoc(Recs(l), Recs(l')[n], Due);
  }

  /** A refund that the gateway accepts and the payment service cannot save, or whose reply nobody hears: the
      money is back, and the booking's refund has FAILED, or is still to be called. */
  lemma {:induction false} UnsavedRefundIsLost() returns (l: Ledger)
    ensures Reachable(l) && Exists(l, 0) && l.w.bookings[0].refund == Some(RefundInitiated)
    ensures var l' := Refunds(l, 0, DriveEnv(NoFault, Finished, true, Payments.Unsaved));
            && |l'.traces| == |l'.w.bookings| == 1 && l'.w.pay.net != DueTotal(l')
            && l'.w.bookings[0].refund == Some(BookingSaga.Failed)
    ensures var l' := Refunds(l, 0, DriveEnv(SavingReply, Finished, false, Payments.Accepted));
            && |l'.traces| == |l'.w.bookings| == 1 && l'.w.pay.net != DueTotal(l')
            && l'.w.bookings[0].refund == Some(RefundInitiated)
  {
    hide Reachable, Inv, Refunds;
    l := Cancelled();
    ReachableAgrees(l);
    RefundKeepsAgreementIff(l, 0, DriveEnv(NoFault, Finished, true, Payments.Unsaved));
    RefundKeepsAgreementIff(l, 0, DriveEnv(SavingReply, Finished, false, Payments.Accepted));
  }
}
