/** Agreement between the gateway's ledger, the payment tables, the bookings and the outbox, over every
    interleaving of bookings being created, confirmed, cancelled, abandoned and refunded, one service
    call or transaction at a time. */
module MoneyLedger {
  import opened Basics
  import opened SeatStore
  import opened BookingSaga
  import Payments

  /** How far the `createBooking` call of a booking has come. */
  datatype Stage =
    | ToPay(key: Id)          // persisted PENDING, the payment call is next
    | ToConfirm               // paid, the confirm transaction is next
    | ToCancel(release: bool) // not paid, the cancellation is next
    | Placed                  // the confirm transaction committed
    | ConfirmLost             // paid, but the confirm transaction failed; cancelled, if that save worked
    | Unpaid                  // cancelled without payment
    | Abandoned(paid: bool)   // the process died in between

  /** The history of a booking: its stage, and the payment and refund rows written for it. */
  datatype Trace = Trace(stage: Stage, payment: Option<nat>, refund: Option<nat>)

  datatype Ledger = Ledger(w: World, traces: seq<Trace>)

  datatype Op =
    | Place(user: Id, event: Id, ids: seq<Id>, key: Id)
    | Pay(b: nat, providerKnown: bool, answer: Payments.Answer)
    | Conclude(b: nat, commits: bool, cancelling: Cancelling)
    | Abandon(b: nat)
    | Cancel(b: nat, key: Id)
    | Refund(b: nat, env: DriveEnv)

  predicate FreshPaymentKey(l: Ledger, key: Id) {
    && PaymentKeyFree(l.w.pay.payments, key)
    && forall i :: 0 <= i < |l.traces| ==> l.traces[i].stage != ToPay(key)
  }

  predicate PaymentKeyFree(ps: seq<Payments.Payment>, key: Id) {
    forall p :: 0 <= p < |ps| ==> ps[p].key != key
  }

  predicate FreshRefundKey(l: Ledger, key: Id) {
    && (forall r :: 0 <= r < |l.w.pay.refunds| ==> l.w.pay.refunds[r].key != key)
    && (forall b :: 0 <= b < |l.w.bookings| ==> l.w.bookings[b].refundKey != Some(key))
  }

  predicate Exists(l: Ledger, b: nat) {
    b < |l.traces| && b < |l.w.bookings|
  }

  /** Keys are fresh per booking, the payment service saves what the gateway answered, and the outcome of a
      refund call is saved by the step or the catch; `cancelBooking` accepts CONFIRMED bookings only; a refund
      step is one iteration of the state machine, faults included. */
  predicate Enabled(l: Ledger, op: Op) {
    match op
    case Place(u, e, ids, key) => Bookable(l.w.seats, u, e, ids) && FreshPaymentKey(l, key)
    case Pay(b, _, answer) => Exists(l, b) && l.traces[b].stage.ToPay? && !answer.Unsaved?
    case Conclude(b, _, _) => Exists(l, b) && (l.traces[b].stage.ToConfirm? || l.traces[b].stage.ToCancel?)
    case Abandon(b) =>
      Exists(l, b) && (l.traces[b].stage.ToPay? || l.traces[b].stage.ToConfirm? || l.traces[b].stage.ToCancel?)
    case Cancel(b, key) =>
      Exists(l, b) && l.w.bookings[b].status == Confirmed && (l.w.bookings[b].refund.None? ==> FreshRefundKey(l, key))
    case Refund(b, env) => Exists(l, b) && l.w.bookings[b].refund.Some? && !env.answer.Unsaved? && !Unheard(env)
  }

  function StageAfter(outcome: PaymentOutcome): Stage {
    match outcome
    case PaidOk => ToConfirm
    case NotPaid => ToCancel(true)
    case PaymentThrew => ToCancel(false)
  }

  function Pays(l: Ledger, b: nat, known: bool, answer: Payments.Answer): Ledger
    requires Exists(l, b) && l.traces[b].stage.ToPay?
  {
    var charged := Payments.Charge(l.w.pay, b, l.traces[b].stage.key, l.w.bookings[b].total, known, answer);
    var row := if |charged.db.payments| > |l.w.pay.payments| then Some(|l.w.pay.payments|) else None;
    Ledger(l.w.(pay := charged.db), l.traces[b := Trace(StageAfter(OutcomeOf(charged)), row, None)])
  }

  function Concludes(l: Ledger, b: nat, commits: bool, c: Cancelling): Ledger
    requires Exists(l, b)
  {
    match l.traces[b].stage
    case ToConfirm =>
      Ledger(Settle(l.w, b, PaidOk, commits, c),
          l.traces[b := l.traces[b].(stage := if commits then Placed else ConfirmLost)])
    case ToCancel(release) =>
      Ledger(Settle(l.w, b, if release then NotPaid else PaymentThrew, commits, c),
          l.traces[b := l.traces[b].(stage := Unpaid)])
    case _ => l
  }

  function Refunds(l: Ledger, b: nat, env: DriveEnv): Ledger
    requires Exists(l, b)
  {
    var w' := MachineStep(l.w, b, env).0;
    var row := if |w'.pay.refunds| > |l.w.pay.refunds| then Some(|l.w.pay.refunds|) else l.traces[b].refund;
    Ledger(w', l.traces[b := l.traces[b].(refund := row)])
  }

  function Apply(l: Ledger, op: Op): Ledger {
    match op
    case Place(u, e, ids, key) => Ledger(Persist(l.w, u, e, ids), l.traces + [Trace(ToPay(key), None, None)])
    case Pay(b, known, answer) => if Exists(l, b) && l.traces[b].stage.ToPay? then Pays(l, b, known, answer) else l
    case Conclude(b, commits, c) => if Exists(l, b) then Concludes(l, b, commits, c) else l
    case Abandon(b) =>
      if !Exists(l, b) then l
      else l.(traces := l.traces[b := l.traces[b].(stage := Abandoned(l.traces[b].stage.ToConfirm?))])
    case Cancel(b, key) => if Exists(l, b) then l.(w := InitiateRefund(l.w, b, key)) else l
    case Refund(b, env) => if Exists(l, b) then Refunds(l, b, env) else l
  }

  // ----- what a booking owes the ledger

  predicate PastInitiated(r: Option<RefundState>) {
    r == Some(PaymentRefunded) || r == Some(SeatsReleased) || r == Some(Completed)
  }

  /** The customer's money is with the gateway. */
  predicate Keeps(row: Booking, stage: Stage) {
    match stage
    case ToConfirm => true
    case Placed => !PastInitiated(row.refund)
    case ConfirmLost => true
    case Abandoned(paid) => paid
    case _ => false
  }

  datatype Rec = Rec(row: Booking, stage: Stage)

  function Due(r: Rec): int {
    if Keeps(r.row, r.stage) then r.row.total else 0
  }

  function Recs(l: Ledger): (rs: seq<Rec>)
    requires |l.traces| == |l.w.bookings|
    ensures |rs| == |l.traces| && forall i :: 0 <= i < |rs| ==> rs[i] == Rec(l.w.bookings[i], l.traces[i].stage)
  {
    seq(|l.traces|, i requires 0 <= i < |l.traces| => Rec(l.w.bookings[i], l.traces[i].stage))
  }

  function DueTotal(l: Ledger): int
    requires |l.traces| == |l.w.bookings|
  {
    Sum(Recs(l), Due)
  }

  // ----- the invariant

  /** The booking row agrees with its history. */
  predicate RowOk(row: Booking, t: Trace) {
    && (t.stage.Placed? <==> row.status == Confirmed || row.status == RefundedBooking)
    && (row.refund.Some? ==> t.stage.Placed?)
    && (row.refund.Some? <==> row.refundKey.Some?)
    && (row.status == RefundedBooking <==> row.refund == Some(Completed))
  }

  /** The payment is SUCCEEDED exactly while the gateway keeps the money, REFUNDED exactly afterwards. */
  predicate PaymentOk(row: Booking, t: Trace, ps: seq<Payments.Payment>, b: nat) {
    && (t.stage.ToPay? ==> t.payment.None?)
    && (t.payment.None? ==> !Keeps(row, t.stage) && !PastInitiated(row.refund))
    && (t.payment.Some? ==>
         && t.payment.value < |ps|
         && ps[t.payment.value].booking == b && ps[t.payment.value].amount == row.total
         && (ps[t.payment.value].status == Payments.Succeeded <==> Keeps(row, t.stage))
         && (ps[t.payment.value].status == Payments.Refunded <==> PastInitiated(row.refund)))
  }

  /** The refund row, written under the booking's key for the full amount, is PROCESSED exactly when the
      refund state is past initiated. */
  predicate RefundOk(row: Booking, t: Trace, ps: seq<Payments.Payment>, rs: seq<Payments.Refund>) {
    && (t.refund.None? ==> !PastInitiated(row.refund))
    && (t.refund.Some? ==>
         && t.refund.value < |rs| && t.payment.Some? && t.payment.value < |ps|
         && rs[t.refund.value].payment == t.payment.value && rs[t.refund.value].amount == row.total
         && row.refundKey == Some(rs[t.refund.value].key)
         && row.refund.Some? && row.refund != Some(RefundInitiated)
         && (rs[t.refund.value].status == Payments.Processed <==> PastInitiated(row.refund)))
  }

  predicate BookingOk(l: Ledger, b: nat)
    requires Exists(l, b)
  {
    && RowOk(l.w.bookings[b], l.traces[b])
    && PaymentOk(l.w.bookings[b], l.traces[b], l.w.pay.payments, b)
    && RefundOk(l.w.bookings[b], l.traces[b], l.w.pay.payments, l.w.pay.refunds)
  }

  ghost predicate BookingsOk(l: Ledger) {
    |l.traces| == |l.w.bookings| && forall b :: 0 <= b < |l.traces| ==> BookingOk(l, b)
  }

  /** Every payment and refund row is the one in the history of its booking. */
  ghost predicate PaymentsTraced(l: Ledger) {
    forall p :: 0 <= p < |l.w.pay.payments| ==>
      l.w.pay.payments[p].booking < |l.traces| && l.traces[l.w.pay.payments[p].booking].payment == Some(p)
  }

  ghost predicate RefundsTraced(l: Ledger) {
    forall r :: 0 <= r < |l.w.pay.refunds| ==>
      && l.w.pay.refunds[r].payment < |l.w.pay.payments|
      && l.w.pay.payments[l.w.pay.refunds[r].payment].booking < |l.traces|
      && l.traces[l.w.pay.payments[l.w.pay.refunds[r].payment].booking].refund == Some(r)
  }

  ghost predicate RowsTraced(l: Ledger) {
    PaymentsTraced(l) && RefundsTraced(l)
  }

  ghost predicate PaymentKeysOk(l: Ledger) {
    && (forall b :: 0 <= b < |l.traces| && l.traces[b].stage.ToPay? ==>
       PaymentKeyFree(l.w.pay.payments, l.traces[b].stage.key))
    && (forall b, c :: 0 <= b < c < |l.traces| && l.traces[b].stage.ToPay? ==> l.traces[b].stage != l.traces[c].stage)
  }

  ghost predicate RefundKeysOk(l: Ledger) {
    forall b, c :: 0 <= b < c < |l.w.bookings| && l.w.bookings[b].refundKey.Some? ==>
        l.w.bookings[b].refundKey != l.w.bookings[c].refundKey
  }

  function OutboxCount(w: World, kind: OutboxKind, b: nat): nat {
    Count(w.outbox, (r: OutboxRow) => r == OutboxRow(kind, b))
  }

  /** The rows of each kind that a booking has. */
  function RowsDue(l: Ledger, b: nat): nat {
    if b < |l.traces| && l.traces[b].stage.Placed? then 1 else 0
  }

  /** Exactly one `seats.mark_sold` and one `booking.confirmed` row for each placed booking, none else. */
  ghost predicate OutboxOk(l: Ledger) {
    forall b: nat :: OutboxCount(l.w, MarkSold, b) == OutboxCount(l.w, BookingConfirmed, b) == RowsDue(l, b)
  }

  ghost predicate Inv(l: Ledger) {
    BookingsOk(l) && RowsTraced(l) && PaymentKeysOk(l) && RefundKeysOk(l) && OutboxOk(l) && l.w.pay.net == DueTotal(l)
  }

  // ----- frames

  lemma DueTotalUpdate(l: Ledger, l': Ledger, b: nat)
    requires |l.traces| == |l.w.bookings| && |l'.traces| == |l'.w.bookings| == |l.traces| && b < |l.traces|
    requires forall i :: 0 <= i < |l.traces| && i != b ==>
             l'.w.bookings[i] == l.w.bookings[i] && l'.traces[i] == l.traces[i]
    ensures DueTotal(l') == DueTotal(l) - Due(Recs(l)[b]) + Due(Recs(l')[b])
  {
    assert Recs(l') == Recs(l)[b := Recs(l')[b]];
    SumUpdate(Recs(l), b, Recs(l')[b], Due);
  }

  /** Only booking b's row and trace change; payment and refund rows are only added, or changed when
      they are b's own. */
  ghost predicate Touches(l: Ledger, l': Ledger, b: nat) {
    && |l.traces| == |l.w.bookings| == |l'.traces| == |l'.w.bookings| && b < |l.traces|
    && (forall c :: 0 <= c < |l.traces| && c != b ==>
       l'.w.bookings[c] == l.w.bookings[c] && l'.traces[c] == l.traces[c])
    && |l.w.pay.payments| <= |l'.w.pay.payments| && |l.w.pay.refunds| <= |l'.w.pay.refunds|
    && (forall p :: 0 <= p < |l.w.pay.payments| && l.w.pay.payments[p].booking != b ==>
       l'.w.pay.payments[p] == l.w.pay.payments[p])
    && (forall r :: 0 <= r < |l.w.pay.refunds| ==> l'.w.pay.refunds[r] == l.w.pay.refunds[r])
  }

  lemma OthersStayOk(l: Ledger, l': Ledger, b: nat)
    requires BookingsOk(l) && Touches(l, l', b) && BookingOk(l', b)
    ensures BookingsOk(l')
  {
    forall c | 0 <= c < |l'.traces| ensures BookingOk(l', c) {
      if c != b {
        assert BookingOk(l, c);
      }
    }
  }

  /** The only SUCCEEDED payment of a booking is the one in its history. */
  lemma TheSucceededPayment(l: Ledger, b: nat)
    requires BookingsOk(l) && RowsTraced(l) && b < |l.traces|
    ensures Payments.SucceededOf(l.w.pay.payments, b) ==
            if Keeps(l.w.bookings[b], l.traces[b].stage) then l.traces[b].payment else None
  {
    assert BookingOk(l, b);
  }

  /** Before its refund call a booking's key is on no refund row. */
  lemma RefundKeyUnused(l: Ledger, b: nat)
    requires BookingsOk(l) && RowsTraced(l) && RefundKeysOk(l) && b < |l.traces|
    requires l.w.bookings[b].refund == Some(RefundInitiated)
    ensures Payments.RefundByKey(l.w.pay.refunds, l.w.bookings[b].refundKey.GetOr("")).None?
  {
    var key := l.w.bookings[b].refundKey.GetOr("");
    assert l.w.bookings[b].refundKey == Some(key) by {
      assert BookingOk(l, b);
    }
    forall r | 0 <= r < |l.w.pay.refunds| ensures l.w.pay.refunds[r].key != key {
      var c := l.w.pay.payments[l.w.pay.refunds[r].payment].booking;
      assert BookingOk(l, c);
      assert c != b;
      assert l.w.bookings[if b < c then b else c].refundKey != l.w.bookings[if b < c then c else b].refundKey;
    }
  }

  // ----- what each operation keeps

  lemma OutboxStays(l: Ledger, l': Ledger)
    requires OutboxOk(l) && l'.w.outbox == l.w.outbox
    requires forall b: nat :: RowsDue(l', b) == RowsDue(l, b)
    ensures OutboxOk(l')
  {
    forall b: nat
      ensures OutboxCount(l'.w, MarkSold, b) == OutboxCount(l'.w, BookingConfirmed, b) == RowsDue(l', b)
    {
      assert OutboxCount(l.w, MarkSold, b) == OutboxCount(l'.w, MarkSold, b);
      assert OutboxCount(l.w, BookingConfirmed, b) == OutboxCount(l'.w, BookingConfirmed, b);
    }
  }

  lemma OutboxSnoc(w: World, w': World, row: OutboxRow, kind: OutboxKind, b: nat)
    requires w'.outbox == w.outbox + [row]
    ensures OutboxCount(w', kind, b) == OutboxCount(w, kind, b) + if row == OutboxRow(kind, b) then 1 else 0
  {
    CountSnoc(w.outbox, row, (r: OutboxRow) => r == OutboxRow(kind, b));
  }

  lemma PlaceKeepsRows(l: Ledger, l': Ledger, row: Booking, key: Id)
    requires BookingsOk(l) && RowsTraced(l) && row.status == PendingBooking && row.refund.None? && row.refundKey.None?
    requires l' == Ledger(l.w.(bookings := l.w.bookings + [row]), l.traces + [Trace(ToPay(key), None, None)])
    ensures BookingsOk(l') && RowsTraced(l')
  {
    forall b | 0 <= b < |l'.traces| ensures BookingOk(l', b) {
      if b < |l.traces| { assert BookingOk(l, b); }
    }
  }

  lemma PlaceKeepsKeys(l: Ledger, l': Ledger, row: Booking, key: Id)
    requires BookingsOk(l) && PaymentKeysOk(l) && RefundKeysOk(l) && row.refundKey.None? && FreshPaymentKey(l, key)
    requires l' == Ledger(l.w.(bookings := l.w.bookings + [row]), l.traces + [Trace(ToPay(key), None, None)])
    ensures PaymentKeysOk(l') && RefundKeysOk(l')
  {
  }

  lemma PlaceKeepsTotal(l: Ledger, l': Ledger, row: Booking, key: Id)
    requires |l.traces| == |l.w.bookings|
    requires l' == Ledger(l.w.(bookings := l.w.bookings + [row]), l.traces + [Trace(ToPay(key), None, None)])
    ensures DueTotal(l') == DueTotal(l)
  {
    assert Recs(l') == Recs(l) + [Rec(row, ToPay(key))];
    SumSnoc(Recs(l), Rec(row, ToPay(key)), Due);
  }

  lemma PlaceKeeps(l: Ledger, u: Id, e: Id, ids: seq<Id>, key: Id)
    requires Inv(l) && FreshPaymentKey(l, key)
    ensures Inv(Apply(l, Place(u, e, ids, key)))
  {
    var l' := Apply(l, Place(u, e, ids, key));
    var row := NewBooking(l.w.seats, u, e, ids);
    PlaceKeepsRows(l, l', row, key);
    PlaceKeepsKeys(l, l', row, key);
    PlaceKeepsTotal(l, l', row, key);
    OutboxStays(l, l');
  }

  function PaidRow(l: Ledger, b: nat, a: Payments.Answer): Payments.Payment
    requires Exists(l, b) && l.traces[b].stage.ToPay?
  {
    Payments.Payment(b, l.traces[b].stage.key, l.w.bookings[b].total,
                     if a.Accepted? then Payments.Succeeded else Payments.Failed)
  }

  /** What the payment call does to a booking that has none yet. */
  lemma PayTouches(l: Ledger, b: nat, known: bool, a: Payments.Answer)
    requires BookingsOk(l) && RowsTraced(l) && PaymentKeysOk(l) && Exists(l, b) && l.traces[b].stage.ToPay?
    requires !a.Unsaved?
    ensures var l' := Pays(l, b, known, a);
            && Touches(l, l', b)
            && l'.w == l.w.(pay := l'.w.pay) && l'.w.pay.refunds == l.w.pay.refunds
            && (if known then l'.w.pay.payments == l.w.pay.payments + [l'.w.pay.payments[|l.w.pay.payments|]]
                else l'.w.pay.payments == l.w.pay.payments)
            && (known ==> l'.w.pay.payments[|l.w.pay.payments|] == PaidRow(l, b, a))
            && l'.traces[b].payment == (if known then Some(|l.w.pay.payments|) else None)
            && l'.traces[b].refund.None?
            && (if known && a.Accepted? then l'.traces[b].stage == ToConfirm else l'.traces[b].stage.ToCancel?)
            && l'.w.pay.net == l.w.pay.net + (if known && a.Accepted? then l.w.bookings[b].total else 0)
  {
    assert BookingOk(l, b);
    assert Payments.PaymentByKey(l.w.pay.payments, l.traces[b].stage.key).None?;
  }

  lemma PayKeepsBookings(l: Ledger, b: nat, known: bool, a: Payments.Answer)
    requires BookingsOk(l) && RowsTraced(l) && PaymentKeysOk(l) && Exists(l, b) && l.traces[b].stage.ToPay?
    requires !a.Unsaved?
    ensures BookingsOk(Pays(l, b, known, a))
  {
    var l' := Pays(l, b, known, a);
    PayTouches(l, b, known, a);
    assert BookingOk(l, b);
    assert BookingOk(l', b);
    OthersStayOk(l, l', b);
  }

  /** A new payment row for a booking that had none. */
  lemma PaymentsTracedGrow(l: Ledger, l': Ledger, b: nat)
    requires PaymentsTraced(l) && Touches(l, l', b) && l.traces[b].payment.None?
    requires l'.w.pay.payments == l.w.pay.payments ||
             (&& |l'.w.pay.payments| == |l.w.pay.payments| + 1 && l'.w.pay.payments[|l.w.pay.payments|].booking == b
              && l'.traces[b].payment == Some(|l.w.pay.payments|))
    ensures PaymentsTraced(l')
  {
    forall p | 0 <= p < |l'.w.pay.payments|
      ensures l'.w.pay.payments[p].booking < |l'.traces| && l'.traces[l'.w.pay.payments[p].booking].payment == Some(p)
    {
      if p < |l.w.pay.payments| {
        assert l.w.pay.payments[p].booking != b;
      }
    }
  }

  /** The refund rows still lead to the same bookings, none of them b. */
  lemma RefundsTracedStay(l: Ledger, l': Ledger, b: nat)
    requires RefundsTraced(l) && b < |l.traces| == |l'.traces| && l.traces[b].refund.None?
    requires l'.w.pay.refunds == l.w.pay.refunds && |l.w.pay.payments| <= |l'.w.pay.payments|
    requires forall c :: 0 <= c < |l.traces| && c != b ==> l'.traces[c] == l.traces[c]
    requires forall p :: 0 <= p < |l.w.pay.payments| && l.w.pay.payments[p].booking != b ==>
             l'.w.pay.payments[p] == l.w.pay.payments[p]
    ensures RefundsTraced(l')
  {
    forall r | 0 <= r < |l.w.pay.refunds|
      ensures l.w.pay.refunds[r].payment < |l'.w.pay.payments|
      ensures l'.w.pay.payments[l.w.pay.refunds[r].payment].booking < |l'.traces|
      ensures l'.traces[l'.w.pay.payments[l.w.pay.refunds[r].payment].booking].refund == Some(r)
    {
      assert l.w.pay.payments[l.w.pay.refunds[r].payment].booking != b;
    }
  }

  lemma PayKeepsRows(l: Ledger, b: nat, known: bool, a: Payments.Answer)
    requires BookingsOk(l) && RowsTraced(l) && PaymentKeysOk(l) && Exists(l, b) && l.traces[b].stage.ToPay?
    requires !a.Unsaved?
    ensures BookingsOk(Pays(l, b, known, a)) && RowsTraced(Pays(l, b, known, a))
  {
    PayKeepsBookings(l, b, known, a);
    PayTouches(l, b, known, a);
    assert l.traces[b].payment.None? && l.traces[b].refund.None? by {
      assert BookingOk(l, b);
    }
    PaymentsTracedGrow(l, Pays(l, b, known, a), b);
    RefundsTracedStay(l, Pays(l, b, known, a), b);
  }

  lemma PayKeeps(l: Ledger, b: nat, known: bool, a: Payments.Answer)
    requires Inv(l) && Exists(l, b) && l.traces[b].stage.ToPay? && !a.Unsaved?
    ensures Inv(Pays(l, b, known, a))
  {
    hide BookingOk, RowsTraced;
    var l' := Pays(l, b, known, a);
    PayTouches(l, b, known, a);
    PayKeepsRows(l, b, known, a);
    OutboxStays(l, l');
    DueTotalUpdate(l, l', b);
    assert !Keeps(l.w.bookings[b], l.traces[b].stage);
  }

  /** What settling does: the booking row and its stage change, and nothing of the payment service. */
  lemma ConcludeTouches(l: Ledger, b: nat, commits: bool, c: Cancelling)
    requires BookingsOk(l) && Exists(l, b) && (l.traces[b].stage.ToConfirm? || l.traces[b].stage.ToCancel?)
    ensures var l' := Concludes(l, b, commits, c);
            var confirmed := l.traces[b].stage.ToConfirm? && commits;
            && Touches(l, l', b) && l'.w.pay == l.w.pay
            && l'.w.bookings[b] == l.w.bookings[b].(status := l'.w.bookings[b].status)
            && (if confirmed then l'.w.bookings[b].status == Confirmed
                else l'.w.bookings[b].status == CancelledBooking || l'.w.bookings[b].status == l.w.bookings[b].status)
            && l'.traces[b].stage == (if confirmed then Placed
                                      else if l.traces[b].stage.ToConfirm? then ConfirmLost
                                      else Unpaid)
            && l'.traces[b] == l.traces[b].(stage := l'.traces[b].stage)
            && (!confirmed ==> l'.w.outbox == l.w.outbox)
  {
  }

  lemma ConcludeKeepsBookings(l: Ledger, b: nat, commits: bool, c: Cancelling)
    requires BookingsOk(l) && RowsTraced(l) && Exists(l, b)
    requires l.traces[b].stage.ToConfirm? || l.traces[b].stage.ToCancel?
    ensures BookingsOk(Concludes(l, b, commits, c)) && RowsTraced(Concludes(l, b, commits, c))
  {
    var l' := Concludes(l, b, commits, c);
    ConcludeTouches(l, b, commits, c);
    assert BookingOk(l, b);
    assert BookingOk(l', b);
    OthersStayOk(l, l', b);
  }

  lemma ConfirmKeepsOutbox(l: Ledger, b: nat, c: Cancelling)
    requires OutboxOk(l) && Exists(l, b) && l.traces[b].stage.ToConfirm?
    ensures OutboxOk(Concludes(l, b, true, c))
  {
    var l' := Concludes(l, b, true, c);
    var half := l.w.(outbox := l.w.outbox + [OutboxRow(MarkSold, b)]);
    assert l'.w.outbox == half.outbox + [OutboxRow(BookingConfirmed, b)];
    forall d: nat
      ensures OutboxCount(l'.w, MarkSold, d) == OutboxCount(l'.w, BookingConfirmed, d) == RowsDue(l', d)
    {
      OutboxSnoc(l.w, half, OutboxRow(MarkSold, b), MarkSold, d);
      OutboxSnoc(l.w, half, OutboxRow(MarkSold, b), BookingConfirmed, d);
      OutboxSnoc(half, l'.w, OutboxRow(BookingConfirmed, b), MarkSold, d);
      OutboxSnoc(half, l'.w, OutboxRow(BookingConfirmed, b), BookingConfirmed, d);
      assert OutboxCount(l.w, MarkSold, d) == OutboxCount(l.w, BookingConfirmed, d);
    }
  }

  lemma ConcludeKeeps(l: Ledger, b: nat, commits: bool, c: Cancelling)
    requires Inv(l) && Exists(l, b) && (l.traces[b].stage.ToConfirm? || l.traces[b].stage.ToCancel?)
    ensures Inv(Concludes(l, b, commits, c))
  {
    hide PaymentOk, RefundOk, RowsTraced, OutboxCount;
    var l' := Concludes(l, b, commits, c);
    assert l.w.bookings[b].refund.None? by {
      assert BookingOk(l, b);
    }
    ConcludeTouches(l, b, commits, c);
    ConcludeKeepsBookings(l, b, commits, c);
    if l.traces[b].stage.ToConfirm? && commits {
      ConfirmKeepsOutbox(l, b, c);
    } else {
      OutboxStays(l, l');
    }
    DueTotalUpdate(l, l', b);
  }

  lemma AsManyTraces(l: Ledger)
    requires BookingsOk(l)
    ensures |l.traces| == |l.w.bookings|
  {
  }

  lemma AbandonedStaysOk(l: Ledger, b: nat)
    requires BookingsOk(l) && Enabled(l, Abandon(b))
    ensures BookingsOk(Apply(l, Abandon(b))) && l.w.bookings[b].refund.None?
  {
    assert BookingOk(l, b);
    assert BookingOk(Apply(l, Abandon(b)), b);
    OthersStayOk(l, Apply(l, Abandon(b)), b);
  }

  lemma AbandonKeeps(l: Ledger, b: nat)
    requires Inv(l) && Enabled(l, Abandon(b))
    ensures Inv(Apply(l, Abandon(b)))
  {
    hide BookingsOk, OutboxOk, OutboxCount;
    var l' := Apply(l, Abandon(b));
    AbandonedStaysOk(l, b);
    assert |l.traces| == |l.w.bookings| by { AsManyTraces(l); }
    OutboxStays(l, l');
    DueTotalUpdate(l, l', b);
  }

  lemma CancelledStaysOk(l: Ledger, b: nat, key: Id)
    requires BookingsOk(l) && Enabled(l, Cancel(b, key))
    ensures BookingsOk(Apply(l, Cancel(b, key)))
  {
    assert BookingOk(l, b);
    assert BookingOk(Apply(l, Cancel(b, key)), b);
    OthersStayOk(l, Apply(l, Cancel(b, key)), b);
  }

  lemma CancelKeeps(l: Ledger, b: nat, key: Id)
    requires Inv(l) && Enabled(l, Cancel(b, key))
    ensures Inv(Apply(l, Cancel(b, key)))
  {
    hide BookingsOk, OutboxOk, OutboxCount;
    var l' := Apply(l, Cancel(b, key));
    CancelledStaysOk(l, b, key);
    assert |l.traces| == |l.w.bookings| by { AsManyTraces(l); }
    OutboxStays(l, l');
    DueTotalUpdate(l, l', b);
  }

  // ----- the refund step

  function RefundRow(l: Ledger, b: nat, a: Payments.Answer): Payments.Refund
    requires Exists(l, b)
  {
    Payments.Refund(l.traces[b].payment.GetOr(0), l.w.bookings[b].refundKey.GetOr(""), l.w.bookings[b].total,
                    if a.Accepted? then Payments.Processed else Payments.Rejected)
  }

  function GivenBack(ps: seq<Payments.Payment>, p: nat): seq<Payments.Payment>
    requires p < |ps|
  {
    ps[p := ps[p].(status := Payments.Refunded)]
  }

  /** A new refund row for the whole payment, and when the gateway accepts, the payment REFUNDED and the
      money gone; otherwise the refund has FAILED. */
  ghost predicate RefundCalled(l: Ledger, l': Ledger, b: nat, env: DriveEnv)
    requires Exists(l, b)
  {
    var row, t := l.w.bookings[b], l.traces[b];
    && Touches(l, l', b) && l'.w.outbox == l.w.outbox
    && t.payment.Some? && t.payment.value < |l.w.pay.payments|
    && l'.w.pay.refunds == l.w.pay.refunds + [RefundRow(l, b, env.answer)]
    && l'.traces[b] == t.(refund := Some(|l.w.pay.refunds|))
    && l'.w.pay.payments ==
       (if env.answer.Accepted? then GivenBack(l.w.pay.payments, t.payment.value) else l.w.pay.payments)
    && l'.w.pay.net == l.w.pay.net - (if env.answer.Accepted? then row.total else 0)
    && l'.w.bookings[b] == AfterReply(row, env.answer.Accepted?, env)
  }

  function AfterReply(row: Booking, success: bool, env: DriveEnv): Booking {
    if success then
      row.(refund := Some(PaymentRefunded), retries := row.retries + if env.fault == SavingReply then 1 else 0)
    else
      row.(refund := Some(BookingSaga.Failed), retries := row.retries + if env.recorded then 1 else 0)
  }

  lemma RefundsUnfold(l: Ledger, b: nat, env: DriveEnv)
    requires Exists(l, b) && l.w.bookings[b].refund == Some(RefundInitiated) && env.fault != AtRefund && !Unheard(env)
    ensures var row := l.w.bookings[b];
            var reply := Payments.GiveBack(l.w.pay, b, row.refundKey.GetOr(""), env.answer);
            var grown := |reply.db.refunds| > |l.w.pay.refunds|;
            Refunds(l, b, env) ==
            Ledger(l.w.(pay := reply.db,
                bookings := l.w.bookings[b := AfterReply(row, Payments.RefundSucceeded(reply), env)]),
                   l.traces[b := l.traces[b].(refund := if grown then Some(|l.w.pay.refunds|) else l.traces[b].refund)])
  {
    var row := l.w.bookings[b];
    var failed, refunded := row.(refund := Some(BookingSaga.Failed)), row.(refund := Some(PaymentRefunded));
    assert l.w.bookings[b := failed][b := AfterReply(row, false, env)]
        == l.w.bookings[b := AfterReply(row, false, env)];
    assert AfterReply(row, true, env).(retries := row.retries) == refunded;
  }

  /** While the refund is initiated its key is on no refund row, so that the call writes one. */
  lemma FirstRefundOf(l: Ledger, b: nat, a: Payments.Answer)
    requires BookingsOk(l) && RowsTraced(l) && RefundKeysOk(l) && Exists(l, b)
    requires l.w.bookings[b].refund == Some(RefundInitiated)
    ensures l.traces[b].payment.Some? && l.traces[b].payment.value < |l.w.pay.payments|
    ensures l.w.pay.payments[l.traces[b].payment.value].booking == b
    ensures var p := l.traces[b].payment.value;
            var reply := Payments.GiveBack(l.w.pay, b, l.w.bookings[b].refundKey.GetOr(""), a);
            && (Payments.RefundSucceeded(reply) <==> a.Accepted?)
            && reply.db.refunds == l.w.pay.refunds + [RefundRow(l, b, a)]
            && reply.db.payments == (if a.Accepted? then GivenBack(l.w.pay.payments, p) else l.w.pay.payments)
            && reply.db.net == l.w.pay.net - if a.MovesMoney() then l.w.bookings[b].total else 0
  {
    var row, t := l.w.bookings[b], l.traces[b];
    assert Keeps(row, t.stage) && t.payment.Some? && t.payment.value < |l.w.pay.payments|
           && l.w.pay.payments[t.payment.value].booking == b
           && l.w.pay.payments[t.payment.value].amount == row.total by {
      assert BookingOk(l, b);
    }
    TheSucceededPayment(l, b);
    RefundKeyUnused(l, b);
    Payments.FirstRefund(l.w.pay, b, row.refundKey.GetOr(""), a, t.payment.value);
  }

  lemma RefundCallTouches(l: Ledger, b: nat, env: DriveEnv)
    requires BookingsOk(l) && RowsTraced(l) && RefundKeysOk(l) && Exists(l, b)
    requires l.w.bookings[b].refund == Some(RefundInitiated) && env.fault != AtRefund
    requires !env.answer.Unsaved? && !Unheard(env)
    ensures RefundCalled(l, Refunds(l, b, env), b, env)
  {
    FirstRefundOf(l, b, env.answer);
    RefundsUnfold(l, b, env);
    ReplyTouches(l, Refunds(l, b, env), b, env);
  }

  lemma ReplyTouches(l: Ledger, l': Ledger, b: nat, env: DriveEnv)
    requires |l.traces| == |l.w.bookings| && Exists(l, b) && l.traces[b].payment.Some?
    requires l.traces[b].payment.value < |l.w.pay.payments|
    requires var p := l.traces[b].payment.value;
             && l.w.pay.payments[p].booking == b
             && l'.w.pay.payments == (if env.answer.Accepted? then GivenBack(l.w.pay.payments, p) else l.w.pay.payments)
             && l'.w.pay.net == l.w.pay.net - if env.answer.Accepted? then l.w.bookings[b].total else 0
    requires l'.w.pay.refunds == l.w.pay.refunds + [RefundRow(l, b, env.answer)] && l'.w.outbox == l.w.outbox
    requires l'.w.bookings == l.w.bookings[b := AfterReply(l.w.bookings[b], env.answer.Accepted?, env)]
    requires l'.traces == l.traces[b := l.traces[b].(refund := Some(|l.w.pay.refunds|))]
    ensures RefundCalled(l, l', b, env)
  {
  }

  lemma RefundCallKeepsBooking(l: Ledger, l': Ledger, b: nat, env: DriveEnv)
    requires BookingsOk(l) && Exists(l, b) && l.w.bookings[b].refund == Some(RefundInitiated)
    requires RefundCalled(l, l', b, env)
    ensures BookingOk(l', b)
  {
    assert BookingOk(l, b);
  }

  lemma PaymentsTracedStay(l: Ledger, l': Ledger)
    requires PaymentsTraced(l) && |l'.traces| == |l.traces| && |l'.w.pay.payments| == |l.w.pay.payments|
    requires forall p :: 0 <= p < |l.w.pay.payments| ==> l'.w.pay.payments[p].booking == l.w.pay.payments[p].booking
    requires forall c :: 0 <= c < |l.traces| ==> l'.traces[c].payment == l.traces[c].payment
    ensures PaymentsTraced(l')
  {
  }

  lemma RefundsTracedGrow(l: Ledger, l': Ledger, b: nat, row: Payments.Refund)
    requires RefundsTraced(l) && b < |l.traces| && l.traces[b].refund.None? && |l'.traces| == |l.traces|
    requires l'.traces[b].refund == Some(|l.w.pay.refunds|)
    requires forall c :: 0 <= c < |l.traces| && c != b ==> l'.traces[c] == l.traces[c]
    requires l'.w.pay.refunds == l.w.pay.refunds + [row] && row.payment < |l.w.pay.payments|
    requires l.w.pay.payments[row.payment].booking == b
    requires |l'.w.pay.payments| == |l.w.pay.payments|
    requires forall p :: 0 <= p < |l.w.pay.payments| ==> l'.w.pay.payments[p].booking == l.w.pay.payments[p].booking
    ensures RefundsTraced(l')
  {
    forall r | 0 <= r < |l'.w.pay.refunds|
      ensures l'.w.pay.refunds[r].payment < |l'.w.pay.payments|
      ensures l'.w.pay.payments[l'.w.pay.refunds[r].payment].booking < |l'.traces|
      ensures l'.traces[l'.w.pay.payments[l'.w.pay.refunds[r].payment].booking].refund == Some(r)
    {
      if r < |l.w.pay.refunds| {
        assert l'.w.pay.refunds[r] == l.w.pay.refunds[r];
      }
    }
  }

  lemma RefundCallKeepsTraces(l: Ledger, l': Ledger, b: nat, env: DriveEnv)
    requires BookingsOk(l) && RowsTraced(l) && Exists(l, b) && l.w.bookings[b].refund == Some(RefundInitiated)
    requires RefundCalled(l, l', b, env)
    ensures RowsTraced(l')
  {
    assert l.traces[b].refund.None? && l.w.pay.payments[l.traces[b].payment.value].booking == b by {
      assert BookingOk(l, b);
    }
    PaymentsTracedStay(l, l');
    RefundsTracedGrow(l, l', b, RefundRow(l, b, env.answer));
  }

  lemma RefundCallKeepsKeys(l: Ledger, l': Ledger, b: nat, env: DriveEnv)
    requires PaymentKeysOk(l) && RefundKeysOk(l) && Exists(l, b) && RefundCalled(l, l', b, env)
    ensures PaymentKeysOk(l') && RefundKeysOk(l')
  {
    forall c, key | 0 <= c < |l'.traces| && l'.traces[c].stage == ToPay(key)
      ensures PaymentKeyFree(l'.w.pay.payments, key)
    {
      assert l.traces[c].stage == ToPay(key);
      assert PaymentKeyFree(l.w.pay.payments, key);
    }
    forall c, d | 0 <= c < d < |l'.w.bookings| && l'.w.bookings[c].refundKey.Some?
      ensures l'.w.bookings[c].refundKey != l'.w.bookings[d].refundKey
    {
      assert l.w.bookings[c].refundKey != l.w.bookings[d].refundKey;
    }
  }

  lemma RefundCallKeepsTotal(l: Ledger, l': Ledger, b: nat, env: DriveEnv)
    requires BookingsOk(l) && Exists(l, b) && l.w.bookings[b].refund == Some(RefundInitiated)
    requires RefundCalled(l, l', b, env)
    requires l.w.pay.net == DueTotal(l)
    ensures l'.w.pay.net == DueTotal(l')
  {
    assert BookingOk(l, b);
    DueTotalUpdate(l, l', b);
  }

  /** Past the refund call a step changes the booking's row, and of the outbox rows at most adds a
      `booking.refunded`; a refund that is past its call stays past it. */
  lemma LaterStepTouches(l: Ledger, b: nat, env: DriveEnv)
    requires BookingsOk(l) && Exists(l, b) && l.w.bookings[b].refund.Some?
    requires l.w.bookings[b].refund != Some(RefundInitiated) || env.fault == AtRefund
    ensures var l' := Refunds(l, b, env);
            && Touches(l, l', b) && l'.w.pay == l.w.pay && l'.traces == l.traces
            && l'.w.bookings[b].refundKey == l.w.bookings[b].refundKey
            && l'.w.bookings[b].total == l.w.bookings[b].total
            && l'.w.bookings[b].refund.Some?
            && PastInitiated(l'.w.bookings[b].refund) == PastInitiated(l.w.bookings[b].refund)
            && (l'.w.bookings[b].refund == Some(RefundInitiated) <==> l.w.bookings[b].refund == Some(RefundInitiated))
            && (l'.w.outbox == l.w.outbox || l'.w.outbox == l.w.outbox + [OutboxRow(BookingRefunded, b)])
            && RowOk(l'.w.bookings[b], l'.traces[b])
  {
    hide Payments.GiveBack, Payments.RefundSucceeded, ReleaseSoldSeats, RefundOk;
    assert BookingOk(l, b);
  }

  lemma LaterStepKeepsRows(l: Ledger, b: nat, env: DriveEnv)
    requires BookingsOk(l) && RowsTraced(l) && Exists(l, b) && l.w.bookings[b].refund.Some?
    requires l.w.bookings[b].refund != Some(RefundInitiated) || env.fault == AtRefund
    ensures BookingsOk(Refunds(l, b, env)) && RowsTraced(Refunds(l, b, env))
  {
    var l' := Refunds(l, b, env);
    LaterStepTouches(l, b, env);
    assert BookingOk(l, b);
    assert BookingOk(l', b);
    OthersStayOk(l, l', b);
  }

  lemma RefundedRowKeepsOutbox(l: Ledger, l': Ledger, b: nat)
    requires OutboxOk(l) && l'.traces == l.traces && l'.w.outbox == l.w.outbox + [OutboxRow(BookingRefunded, b)]
    ensures OutboxOk(l')
  {
    forall c: nat
      ensures OutboxCount(l'.w, MarkSold, c) == OutboxCount(l'.w, BookingConfirmed, c) == RowsDue(l', c)
    {
      OutboxSnoc(l.w, l'.w, OutboxRow(BookingRefunded, b), MarkSold, c);
      OutboxSnoc(l.w, l'.w, OutboxRow(BookingRefunded, b), BookingConfirmed, c);
      assert OutboxCount(l.w, MarkSold, c) == OutboxCount(l.w, BookingConfirmed, c);
    }
  }

  lemma RefundCallKeeps(l: Ledger, l': Ledger, b: nat, env: DriveEnv)
    requires Inv(l) && Exists(l, b) && l.w.bookings[b].refund == Some(RefundInitiated) && RefundCalled(l, l', b, env)
    ensures Inv(l')
  {
    RefundCallKeepsBooking(l, l', b, env);
    OthersStayOk(l, l', b);
    RefundCallKeepsTraces(l, l', b, env);
    RefundCallKeepsKeys(l, l', b, env);
    RefundCallKeepsTotal(l, l', b, env);
    OutboxStays(l, l');
  }

  lemma RefundKeeps(l: Ledger, b: nat, env: DriveEnv)
    requires Inv(l) && Exists(l, b) && l.w.bookings[b].refund.Some? && !env.answer.Unsaved? && !Unheard(env)
    ensures Inv(Refunds(l, b, env))
  {
    if l.w.bookings[b].refund == Some(RefundInitiated) && env.fault != AtRefund {
      RefundCallTouches(l, b, env);
      RefundCallKeeps(l, Refunds(l, b, env), b, env);
    } else {
      var l' := Refunds(l, b, env);
      LaterStepTouches(l, b, env);
      LaterStepKeepsRows(l, b, env);
      if l'.w.outbox == l.w.outbox {
        OutboxStays(l, l');
      } else {
        RefundedRowKeepsOutbox(l, l', b);
      }
      DueTotalUpdate(l, l', b);
    }
  }

  // ----- every run

  lemma {:induction false} StepKeepsInv(l: Ledger, op: Op)
    requires Inv(l) && Enabled(l, op)
    ensures Inv(Apply(l, op))
  {
    match op
    case Place(u, e, ids, key) => PlaceKeeps(l, u, e, ids, key);
    case Pay(b, known, answer) => PayKeeps(l, b, known, answer);
    case Conclude(b, commits, c) => ConcludeKeeps(l, b, commits, c);
    case Abandon(b) => AbandonKeeps(l, b);
    case Cancel(b, key) => CancelKeeps(l, b, key);
    case Refund(b, env) => RefundKeeps(l, b, env);
  }

  function Run(l: Ledger, ops: seq<Op>): Ledger {
    if ops == [] then l else Apply(Run(l, ops[..|ops| - 1]), ops[|ops| - 1])
  }

  predicate Allowed(l: Ledger, ops: seq<Op>) {
    ops != [] ==> Allowed(l, ops[..|ops| - 1]) && Enabled(Run(l, ops[..|ops| - 1]), ops[|ops| - 1])
  }

  /** Empty booking and payment databases, any seats. */
  function Opening(seats: Store): Ledger {
    Ledger(World([], [], [], Payments.Db([], [], 0), seats), [])
  }

  lemma {:induction false} RunKeepsInv(seats: Store, ops: seq<Op>)
    requires Allowed(Opening(seats), ops)
    ensures Inv(Run(Opening(seats), ops))
  {
    if ops != [] {
      RunKeepsInv(seats, ops[..|ops| - 1]);
      StepKeepsInv(Run(Opening(seats), ops[..|ops| - 1]), ops[|ops| - 1]);
    }
  }

  // ----- what the invariant says to a reader

  /** Takings of CONFIRMED bookings whose refund has not got past its initiated state, or has failed. */
  function Earned(r: Rec): int {
    if r.row.status == Confirmed && !PastInitiated(r.row.refund) then r.row.total else 0
  }

  /** Charges of bookings that were cancelled because their confirm transaction failed. */
  function Stranded(r: Rec): int {
    if r.stage.ConfirmLost? then r.row.total else 0
  }

  /** Charges of bookings whose confirm transaction is still to come, or never will. */
  function InFlight(r: Rec): int {
    if r.stage.ToConfirm? || r.stage == Abandoned(true) then r.row.total else 0
  }

  lemma {:induction false} SumSplits(l: Ledger, n: nat)
    requires BookingsOk(l) && n <= |l.traces|
    ensures Sum(Recs(l)[..n], Due)
            == Sum(Recs(l)[..n], Earned) + Sum(Recs(l)[..n], Stranded) + Sum(Recs(l)[..n], InFlight)
  {
    if n > 0 {
      SumSplits(l, n - 1);
      assert Recs(l)[..n] == Recs(l)[..n - 1] + [Recs(l)[n - 1]];
      SumSnoc(Recs(l)[..n - 1], Recs(l)[n - 1], Due);
      SumSnoc(Recs(l)[..n - 1], Recs(l)[n - 1], Earned);
      SumSnoc(Recs(l)[..n - 1], Recs(l)[n - 1], Stranded);
      SumSnoc(Recs(l)[..n - 1], Recs(l)[n - 1], InFlight);
      assert BookingOk(l, n - 1);
    }
  }

  /** In every reachable state the gateway holds what the bookings account for. */
  lemma {:induction false} NetTakingsAgree(seats: Store, ops: seq<Op>, l: Ledger)
    requires Allowed(Opening(seats), ops) && l == Run(Opening(seats), ops)
    ensures |l.traces| == |l.w.bookings|
    ensures l.w.pay.net == Sum(Recs(l), Earned) + Sum(Recs(l), Stranded) + Sum(Recs(l), InFlight)
  {
    RunKeepsInv(seats, ops);
    SumSplits(l, |l.traces|);
    assert Recs(l)[..|l.traces|] == Recs(l);
  }

  predicate RefundOf(w: World, b: nat, r: nat) {
    r < |w.pay.refunds| && w.pay.refunds[r].payment < |w.pay.payments|
        && w.pay.payments[w.pay.refunds[r].payment].booking == b
  }

  predicate FullRefund(w: World, b: nat, r: nat)
    requires b < |w.bookings| && RefundOf(w, b, r)
  {
    && w.pay.refunds[r].status == Payments.Processed && w.pay.refunds[r].amount == w.bookings[b].total
    && w.pay.payments[w.pay.refunds[r].payment].status == Payments.Refunded
  }

  /** A refund state past initiated means a REFUNDED payment with exactly one refund row, PROCESSED and
      for the whole amount. */
  lemma {:induction false} LaterRefundStatesArePaid(seats: Store, ops: seq<Op>, b: nat)
    requires Allowed(Opening(seats), ops)
    requires var w := Run(Opening(seats), ops).w; b < |w.bookings| && PastInitiated(w.bookings[b].refund)
    ensures var w := Run(Opening(seats), ops).w;
            exists r: nat :: RefundOf(w, b, r) && FullRefund(w, b, r) && forall q: nat :: RefundOf(w, b, q) ==> q == r
  {
    var l := Run(Opening(seats), ops);
    RunKeepsInv(seats, ops);
    assert BookingOk(l, b);
    var r := l.traces[b].refund.value;
    assert RefundOf(l.w, b, r) && FullRefund(l.w, b, r);
  }

  /** Exactly the CONFIRMED and REFUNDED bookings have their two outbox rows, one of each. */
  lemma {:induction false} ConfirmedIffOutboxRows(seats: Store, ops: seq<Op>, b: nat)
    requires Allowed(Opening(seats), ops) && b < |Run(Opening(seats), ops).w.bookings|
    ensures var w := Run(Opening(seats), ops).w;
            var placed := w.bookings[b].status == Confirmed || w.bookings[b].status == RefundedBooking;
            OutboxCount(w, MarkSold, b) == OutboxCount(w, BookingConfirmed, b) == if placed then 1 else 0
  {
    var l := Run(Opening(seats), ops);
    RunKeepsInv(seats, ops);
    assert BookingOk(l, b);
    assert OutboxCount(l.w, MarkSold, b) == OutboxCount(l.w, BookingConfirmed, b);
  }

  /** The row that a payment call with this key would find, if any, is SUCCEEDED. */
  predicate KeyAlreadyPaid(ps: seq<Payments.Payment>, key: Id) {
    var found := Payments.PaymentByKey(ps, key);
    found.Some? && ps[found.value].status == Payments.Succeeded
  }

  /** Why payment keys have to be fresh, and answers saved: a charge keeps the takings in step with the
      bookings unless its key already paid for something, in which case the booking goes on to be confirmed
      for nothing, or the gateway took money whose payment is then marked FAILED. */
  lemma {:induction false} ChargeKeepsAgreementIff(l: Ledger, b: nat, known: bool, a: Payments.Answer)
    requires |l.traces| == |l.w.bookings| && Exists(l, b) && l.traces[b].stage.ToPay? && l.w.pay.net == DueTotal(l)
    ensures var l' := Pays(l, b, known, a);
            var key := l.traces[b].stage.key;
            l'.w.pay.net == DueTotal(l') <==>
            || l.w.bookings[b].total == 0
            || !(|| KeyAlreadyPaid(l.w.pay.payments, key)
                 || (PaymentKeyFree(l.w.pay.payments, key) && known && a.Unsaved?))
    ensures KeyAlreadyPaid(l.w.pay.payments, l.traces[b].stage.key) ==>
            Pays(l, b, known, a).traces[b].stage.ToConfirm? && Pays(l, b, known, a).w.pay.net == l.w.pay.net
  {
    var found := Payments.PaymentByKey(l.w.pay.payments, l.traces[b].stage.key);
    if found.Some? {
      assert !PaymentKeyFree(l.w.pay.payments, l.traces[b].stage.key);
    }
    DueTotalUpdate(l, Pays(l, b, known, a), b);
  }

  /** The same for the refund call: when the answer of a gateway that accepted cannot be saved, or its outcome
      is not heard of, the money is back and the booking does not know. */
  lemma {:induction false} RefundKeepsAgreementIff(l: Ledger, b: nat, env: DriveEnv)
    requires Inv(l) && Exists(l, b) && l.w.bookings[b].refund == Some(RefundInitiated) && env.fault != AtRefund
    ensures var l' := Refunds(l, b, env);
            && |l'.traces| == |l'.w.bookings| == |l.traces|
            && (l'.w.pay.net == DueTotal(l') <==>
                l.w.bookings[b].total == 0 || !(env.answer.Unsaved? || (env.answer.Accepted? && Unheard(env))))
            && (Unheard(env) ==> l'.w.bookings[b] == l.w.bookings[b])
            && (env.answer.Unsaved? && !Unheard(env) ==> l'.w.bookings[b].refund == Some(BookingSaga.Failed))
  {
    hide RowsTraced, PaymentKeysOk, RefundKeysOk, OutboxOk, Payments.GiveBack, Payments.RefundSucceeded;
    var l' := Refunds(l, b, env);
    assert l.traces[b].stage.Placed? by {
      assert BookingOk(l, b);
    }
    FirstRefundOf(l, b, env.answer);
    if Unheard(env) {
      UnheardUnfold(l, b, env);
    } else {
      RefundsUnfold(l, b, env);
    }
    DueTotalUpdate(l, l', b);
  }

  lemma UnheardUnfold(l: Ledger, b: nat, env: DriveEnv)
    requires Exists(l, b) && l.w.bookings[b].refund == Some(RefundInitiated) && Unheard(env)
    ensures var reply := Payments.GiveBack(l.w.pay, b, l.w.bookings[b].refundKey.GetOr(""), env.answer);
            && Refunds(l, b, env).w == l.w.(pay := reply.db)
            && |Refunds(l, b, env).traces| == |l.traces|
            && Refunds(l, b, env).traces[b].stage == l.traces[b].stage
            && forall c :: 0 <= c < |l.traces| && c != b ==> Refunds(l, b, env).traces[c] == l.traces[c]
  {
  }
}
