/** What one `createBooking` comes to, read off the request and the stores before it. */
module BookingOutcome {
  import opened Basics
  import opened SeatStore
  import opened BookingSaga
  import Payments

  /** The payment call comes back with an exception: the key is new, and there is no such provider, the
      gateway throws, or its answer cannot be saved. */
  predicate ChargeThrows(w: World, key: Id, env: CreateEnv) {
    && Payments.PaymentByKey(w.pay.payments, key).None?
    && (!env.providerKnown || env.answer == Payments.Threw || env.answer == Payments.Unsaved)
  }

  /** It comes back with a SUCCEEDED payment: the one there already is for the key, or a new one that the
      gateway accepts. */
  predicate ChargeSucceeds(w: World, key: Id, env: CreateEnv) {
    var found := Payments.PaymentByKey(w.pay.payments, key);
    if found.Some? then w.pay.payments[found.value].status == Payments.Succeeded
    else env.providerKnown && env.answer == Payments.Accepted
  }

  /** It comes back with a payment that did not succeed. */
  predicate ChargeFails(w: World, key: Id, env: CreateEnv) {
    !ChargeThrows(w, key, env) && !ChargeSucceeds(w, key, env)
  }

  /** The request passes the checks and is written. */
  predicate Accepts(w: World, u: Id, e: Id, ids: seq<Id>, env: CreateEnv) {
    Bookable(w.seats, u, e, ids) && env.persists
  }

  /** The caller gets the booking: the payment succeeded and the confirmation committed, or it did not
      succeed, the cancellation was saved and the seat release came back. */
  predicate Replies(w: World, key: Id, env: CreateEnv) {
    || (ChargeSucceeds(w, key, env) && env.commits)
    || (ChargeFails(w, key, env) && env.cancelling.firstSave && env.cancelling.answered)
  }

  /** The status in which the booking is left. */
  function StatusLeft(w: World, key: Id, env: CreateEnv): BookingStatus {
    if ChargeSucceeds(w, key, env) && env.commits then Confirmed
    else if ChargeFails(w, key, env) && env.cancelling.firstSave then CancelledBooking
    else if env.cancelling.catchSave then CancelledBooking
    else PendingBooking
  }

  /** The payment row that a charge under a new key leaves; None when nothing is charged. */
  function PaymentLeft(w: World, key: Id, total: int, env: CreateEnv): Option<Payments.Payment> {
    if Payments.PaymentByKey(w.pay.payments, key).Some? || !env.providerKnown then None
    else Some(Payments.Payment(|w.bookings|, key, total,
                               if env.answer == Payments.Accepted then Payments.Succeeded else Payments.Failed))
  }

  /** What the gateway takes. */
  function Taken(w: World, key: Id, total: int, env: CreateEnv): int {
    var reached := Payments.PaymentByKey(w.pay.payments, key).None? && env.providerKnown;
    if reached && (env.answer == Payments.Accepted || env.answer == Payments.Unsaved) then total else 0
  }

  /** The new booking, apart from its status: one item per requested seat, in request order and at the
      seat's price, and their sum as total. */
  predicate IsNew(row: Booking, w: World, u: Id, e: Id, ids: seq<Id>) {
    && row.user == u && row.event == e && row.refund.None? && row.refundKey.None? && row.retries == 0
    && |row.items| == |ids|
    && (forall i :: 0 <= i < |ids| ==>
         row.items[i].seat == ids[i] && SeatKey(e, ids[i]) in w.seats.rows
         && row.items[i].price == w.seats.rows[SeatKey(e, ids[i])].detail.price)
    && row.total == Sum(row.items, (it: Item) => it.price)
  }

  lemma PersistedIsNew(w: World, u: Id, e: Id, ids: seq<Id>)
    requires Bookable(w.seats, u, e, ids)
    ensures IsNew(NewBooking(w.seats, u, e, ids), w, u, e, ids)
    ensures NewBooking(w.seats, u, e, ids).status == PendingBooking
  {
    forall i | 0 <= i < |ids| ensures SeatKey(e, ids[i]) in w.seats.rows {
      assert ids[i] in ids;
    }
  }

  lemma ChargeDoes(w: World, key: Id, total: int, env: CreateEnv)
    ensures var c := Payments.Charge(w.pay, |w.bookings|, key, total, env.providerKnown, env.answer);
            && (OutcomeOf(c) == PaymentThrew <==> ChargeThrows(w, key, env))
            && (OutcomeOf(c) == PaidOk <==> ChargeSucceeds(w, key, env))
            && c.db.refunds == w.pay.refunds
            && c.db.net == w.pay.net + Taken(w, key, total, env)
            && c.db.payments == (if PaymentLeft(w, key, total, env).None? then w.pay.payments
                                 else w.pay.payments + [PaymentLeft(w, key, total, env).value])
  {
  }

  lemma SettleDoes(w: World, b: nat, outcome: PaymentOutcome, commits: bool, c: Cancelling)
    requires b < |w.bookings| && w.bookings[b].status == PendingBooking
    ensures var w' := Settle(w, b, outcome, commits, c);
            var confirmed := outcome == PaidOk && commits;
            var cancels := outcome == NotPaid && c.firstSave;
            && w'.pay == w.pay && w'.tickets == w.tickets
            && w'.bookings == w.bookings[b := w'.bookings[b]]
            && w'.bookings[b] == w.bookings[b].(status :=
                 if confirmed then Confirmed
                 else if cancels || c.catchSave then CancelledBooking else PendingBooking)
            && w'.outbox == w.outbox +
                 (if confirmed then [OutboxRow(MarkSold, b), OutboxRow(BookingConfirmed, b)] else [])
            && w'.seats == (if cancels
                            then ReleaseUpTo(w.seats, w.bookings[b].event, SeatsOf(w.bookings[b]), w.bookings[b].user,
                                             PaymentFailed, c.release)
                            else w.seats)
  {
    hide ReleaseUpTo;
    var row := w.bookings[b];
    assert w.bookings[b := row] == w.bookings;
  }

  /** The whole effect of a request that is accepted. */
  lemma {:induction false} CreateBookingDoes(w: World, u: Id, e: Id, ids: seq<Id>, key: Id, env: CreateEnv)
    requires Accepts(w, u, e, ids, env)
    ensures var w', b := CreateBooking(w, u, e, ids, key, env), |w.bookings|;
            && |w'.bookings| == b + 1 && w'.bookings[..b] == w.bookings
            && IsNew(w'.bookings[b], w, u, e, ids) && w'.bookings[b].status == StatusLeft(w, key, env)
            && w'.outbox == w.outbox +
                 (if StatusLeft(w, key, env) == Confirmed
                  then [OutboxRow(MarkSold, b), OutboxRow(BookingConfirmed, b)] else [])
            && w'.pay.payments == (if PaymentLeft(w, key, w'.bookings[b].total, env).None? then w.pay.payments
                                   else w.pay.payments + [PaymentLeft(w, key, w'.bookings[b].total, env).value])
            && w'.pay.refunds == w.pay.refunds
            && w'.pay.net == w.pay.net + Taken(w, key, w'.bookings[b].total, env)
            && w'.tickets == w.tickets
            && w'.seats == (if ChargeFails(w, key, env) && env.cancelling.firstSave
                            then ReleaseUpTo(w.seats, e, ids, u, PaymentFailed, env.cancelling.release)
                            else w.seats)
  {
    hide Bookable, NewBooking, Settle, Payments.Charge, ReleaseUpTo, PaymentLeft, Taken, ChargeThrows, ChargeSucceeds;
    var row := NewBooking(w.seats, u, e, ids);
    PersistedIsNew(w, u, e, ids);
    NewSeats(w.seats, u, e, ids);
    ChargeDoes(w, key, row.total, env);
    var w1 := Persist(w, u, e, ids);
    var charged := Payments.Charge(w.pay, |w.bookings|, key, row.total, env.providerKnown, env.answer);
    SettleDoes(w1.(pay := charged.db), |w.bookings|, OutcomeOf(charged), env.commits, env.cancelling);
  }

  lemma NewSeats(st: Store, u: Id, e: Id, ids: seq<Id>)
    ensures SeatsOf(NewBooking(st, u, e, ids)) == ids
    ensures NewBooking(st, u, e, ids).event == e && NewBooking(st, u, e, ids).user == u
  {
  }

  lemma RepliesIff(w: World, key: Id, total: int, env: CreateEnv)
    ensures var c := Payments.Charge(w.pay, |w.bookings|, key, total, env.providerKnown, env.answer);
            SettleThrows(OutcomeOf(c), env.commits, env.cancelling) <==> !Replies(w, key, env)
  {
    hide Payments.Charge, ChargeThrows, ChargeSucceeds;
    ChargeDoes(w, key, total, env);
  }

  /** A caller who gets the booking finds it CONFIRMED with its two outbox rows, or CANCELLED after a payment
      that did not succeed. */
  lemma {:induction false} RepliedBookingIsSettled(w: World, u: Id, e: Id, ids: seq<Id>, key: Id, env: CreateEnv)
    requires Accepts(w, u, e, ids, env) && Replies(w, key, env)
    ensures var w', b := CreateBooking(w, u, e, ids, key, env), |w.bookings|;
            && b < |w'.bookings|
            && (if ChargeSucceeds(w, key, env)
                then w'.bookings[b].status == Confirmed
                     && w'.outbox == w.outbox + [OutboxRow(MarkSold, b), OutboxRow(BookingConfirmed, b)]
                else w'.bookings[b].status == CancelledBooking && w'.outbox == w.outbox)
  {
    hide CreateBooking, Bookable;
    CreateBookingDoes(w, u, e, ids, key, env);
  }
}
