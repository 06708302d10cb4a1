/** The payment service at the granularity of whole calls: charging, refunding, and what the gRPC
    controller makes of the outcome.  `net` is the ledger of the gateway, in cents. */
module Payments {
  import opened Basics

  datatype PaymentStatus = Initiated | Processing | Succeeded | Failed | Refunded

  datatype Payment = Payment(booking: nat, key: Id, amount: int, status: PaymentStatus)

  datatype RefundStatus = Pending | Processed | Rejected

  datatype Refund = Refund(payment: nat, key: Id, amount: int, status: RefundStatus)

  datatype Db = Db(payments: seq<Payment>, refunds: seq<Refund>, net: int)

  /** What the gateway does with a call, and `Unsaved` when it accepts and saving its answer throws; a
      call that throws moves no money. */
  datatype Answer = Accepted | Declined | Threw | Unsaved {
    predicate MovesMoney() {
      Accepted? || Unsaved?
    }

    predicate Throws() {
      Threw? || Unsaved?
    }
  }

  function PaymentByKey(ps: seq<Payment>, key: Id): (r: Option<nat>)
    ensures r.Some? ==> r.value < |ps| && ps[r.value].key == key
    ensures r.None? ==> forall i :: 0 <= i < |ps| ==> ps[i].key != key
  {
    if ps == [] then None
    else if ps[|ps| - 1].key == key then Some(|ps| - 1)
    else PaymentByKey(ps[..|ps| - 1], key)
  }

  function SucceededOf(ps: seq<Payment>, booking: nat): (r: Option<nat>)
    ensures r.Some? ==> r.value < |ps| && ps[r.value].booking == booking && ps[r.value].status == Succeeded
    ensures r.None? ==> forall i :: 0 <= i < |ps| ==> !(ps[i].booking == booking && ps[i].status == Succeeded)
  {
    if ps == [] then None
    else if ps[|ps| - 1].booking == booking && ps[|ps| - 1].status == Succeeded then Some(|ps| - 1)
    else SucceededOf(ps[..|ps| - 1], booking)
  }

  function RefundByKey(rs: seq<Refund>, key: Id): (r: Option<nat>)
    ensures r.Some? ==> r.value < |rs| && rs[r.value].key == key
    ensures r.None? ==> forall i :: 0 <= i < |rs| ==> rs[i].key != key
  {
    if rs == [] then None
    else if rs[|rs| - 1].key == key then Some(|rs| - 1)
    else RefundByKey(rs[..|rs| - 1], key)
  }

  /** The row a charge call returns, or None when the call throws. */
  datatype Charged = Charged(db: Db, row: Option<nat>)

  function Charge(db: Db, booking: nat, key: Id, amount: int, providerKnown: bool, answer: Answer): Charged {
    var existing := PaymentByKey(db.payments, key);
    if existing.Some? then Charged(db, existing)
    else if !providerKnown then Charged(db, None)
    else
      var row := Payment(booking, key, amount, if answer.Accepted? then Succeeded else Failed);
      Charged(db.(payments := db.payments + [row], net := db.net + if answer.MovesMoney() then amount else 0),
              if answer.Throws() then None else Some(|db.payments|))
  }

  /** The refund row a refund call returns, or None when the call throws. */
  datatype Refunding = Refunding(db: Db, row: Option<nat>)

  function GiveBack(db: Db, booking: nat, key: Id, answer: Answer): Refunding {
    var payment := SucceededOf(db.payments, booking);
    if payment.None? then Refunding(db, None)
    else
      var p := payment.value;
      var existing := RefundByKey(db.refunds, key);
      if existing.Some? then Refunding(db, existing)
      else
        var amount := db.payments[p].amount;
        var row := Refund(p, key, amount, if answer.Accepted? then Processed else Rejected);
        var db' := db.(refunds := db.refunds + [row]);
        if answer.Accepted? then
          Refunding(db'.(payments := db.payments[p := db.payments[p].(status := Refunded)], net := db.net - amount),
              Some(|db.refunds|))
        else Refunding(db'.(net := db.net - if answer.Unsaved? then amount else 0),
                       if answer.Throws() then None else Some(|db.refunds|))
  }

  /** The controller's success flag: the refund row is PROCESSED and nothing was thrown. */
  function RefundSucceeded(r: Refunding): bool {
    r.row.Some? && r.row.value < |r.db.refunds| && r.db.refunds[r.row.value].status == Processed
  }

  class PaymentService {
    var payments: seq<Payment>
    var refunds: seq<Refund>
    var net: int

    constructor ()
      ensures D() == Db([], [], 0)
    {
      payments, refunds, net := [], [], 0;
    }

    function D(): Db
      reads this
    {
      Db(payments, refunds, net)
    }

    /** Find by key; otherwise insert, mark PROCESSING, charge, and save the outcome.  A throw of the
        gateway marks the payment FAILED and is passed on. */
    method InitiatePayment(booking: nat, key: Id, amount: int, providerKnown: bool, answer: Answer)
      returns (row: Option<nat>)
      modifies this
      ensures Charged(D(), row) == Charge(old(D()), booking, key, amount, providerKnown, answer)
    {
      var existing := PaymentByKey(payments, key);
      if existing.Some? {
        return existing;
      }
      if !providerKnown {
        return None;
      }
      var r := |payments|;
      payments := payments + [Payment(booking, key, amount, Initiated)];
      payments := payments[r := payments[r].(status := Processing)];
      match answer {
        case Accepted =>
          net := net + amount;
          payments := payments[r := payments[r].(status := Succeeded)];
          row := Some(r);
        case Declined =>
          payments := payments[r := payments[r].(status := Failed)];
          row := Some(r);
        case Threw =>
          payments := payments[r := payments[r].(status := Failed)];
          row := None;
        case Unsaved =>
          net := net + amount;
          payments := payments[r := payments[r].(status := Failed)];
          row := None;
      }
    }

    /** Find the SUCCEEDED payment, then the key; otherwise insert a PENDING refund before the gateway
        is called, and save the outcome on refund and payment. */
    method RefundByBooking(booking: nat, key: Id, answer: Answer) returns (row: Option<nat>)
      modifies this
      ensures Refunding(D(), row) == GiveBack(old(D()), booking, key, answer)
    {
      var payment := SucceededOf(payments, booking);
      if payment.None? {
        return None;
      }
      var p := payment.value;
      var existing := RefundByKey(refunds, key);
      if existing.Some? {
        return existing;
      }
      var r := |refunds|;
      refunds := refunds + [Refund(p, key, payments[p].amount, Pending)];
      match answer {
        case Accepted =>
          net := net - payments[p].amount;
          refunds := refunds[r := refunds[r].(status := Processed)];
          payments := payments[p := payments[p].(status := Refunded)];
          row := Some(r);
        case Declined =>
          refunds := refunds[r := refunds[r].(status := Rejected)];
          row := Some(r);
        case Threw =>
          refunds := refunds[r := refunds[r].(status := Rejected)];
          row := None;
        case Unsaved =>
          net := net - payments[p].amount;
          refunds := refunds[r := refunds[r].(status := Rejected)];
          row := None;
      }
    }

    /** PaymentGrpcController.refundPayment. */
    method RefundPayment(booking: nat, key: Id, answer: Answer) returns (success: bool)
      modifies this
      ensures D() == GiveBack(old(D()), booking, key, answer).db
      ensures success == RefundSucceeded(GiveBack(old(D()), booking, key, answer))
    {
      var row := RefundByBooking(booking, key, answer);
      success := row.Some? && row.value < |refunds| && refunds[row.value].status == Processed;
    }
  }

  // ----- what single calls guarantee

  /** Repeating a charge call that returned a row changes nothing and returns the same row. */
  lemma {:induction false} ChargeIsIdempotent(db: Db, booking: nat, key: Id, amount: int, known: bool, a: Answer,
                                            booking': nat, amount': int, known': bool, a': Answer)
    requires forall i, j :: 0 <= i < j < |db.payments| ==> db.payments[i].key != db.payments[j].key
    requires Charge(db, booking, key, amount, known, a).row.Some?
    ensures var first := Charge(db, booking, key, amount, known, a);
            Charge(first.db, booking', key, amount', known', a') == first
  {
    var first := Charge(db, booking, key, amount, known, a);
    var again := PaymentByKey(first.db.payments, key);
    assert first.db.payments[first.row.value].key == key;
  }

  /** A refund that was processed cannot be repeated: its payment is REFUNDED, so a second call, whose
      first reply was lost, throws and reports failure. */
  lemma {:induction false} LostReplyEndsInFailure(db: Db, booking: nat, key: Id, a': Answer)
    requires forall i, j :: 0 <= i < j < |db.payments| ==> db.payments[i].booking != db.payments[j].booking
    requires SucceededOf(db.payments, booking).Some? && RefundByKey(db.refunds, key).None?
    ensures var first := GiveBack(db, booking, key, Accepted);
            && RefundSucceeded(first)
            && GiveBack(first.db, booking, key, a') == Refunding(first.db, None)
            && !RefundSucceeded(GiveBack(first.db, booking, key, a'))
  {
    var first := GiveBack(db, booking, key, Accepted);
    var p := SucceededOf(db.payments, booking).value;
    forall i | 0 <= i < |first.db.payments|
      ensures !(first.db.payments[i].booking == booking && first.db.payments[i].status == Succeeded)
    {
      if i != p { assert first.db.payments[i] == db.payments[i]; }
    }
  }

  /** The first call under a key refunds the whole SUCCEEDED payment when the gateway accepts, and only
      records the attempt otherwise, although the money is gone when the answer could not be saved. */
  lemma FirstRefund(db: Db, booking: nat, key: Id, a: Answer, p: nat)
    requires SucceededOf(db.payments, booking) == Some(p) && RefundByKey(db.refunds, key).None?
    ensures var r := GiveBack(db, booking, key, a);
            && (RefundSucceeded(r) <==> a.Accepted?)
            && r.db.refunds == db.refunds +
               [Refund(p, key, db.payments[p].amount, if a.Accepted? then Processed else Rejected)]
            && r.db.payments ==
               (if a.Accepted? then db.payments[p := db.payments[p].(status := Refunded)] else db.payments)
            && r.db.net == db.net - if a.MovesMoney() then db.payments[p].amount else 0
  {
  }
}
