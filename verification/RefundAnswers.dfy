/** What a cancellation tells its caller, and what no drive of the refund machine touches. */
module RefundAnswers {
  import opened Basics
  import opened SeatStore
  import opened BookingSaga
  import opened RefundResume
  import Payments

  /** Nothing of the booking changes but its status, its refund state and its retry count. */
  predicate SameOrder(row: Booking, row': Booking) {
    row' == row.(status := row'.status, refund := row'.refund, retries := row'.retries)
  }

  /** How many iterations are left. */
  function StepsLeft(r: Option<RefundState>): nat {
    match r
    case Some(RefundInitiated) => 3
    case Some(PaymentRefunded) => 2
    case Some(SeatsReleased) => 1
    case _ => 0
  }

  /** What is known after one iteration on an unfinished refund. */
  lemma StepAnswers(w: World, b: nat, env: DriveEnv)
    requires b < |w.bookings| && Unfinished(w.bookings[b].refund)
    ensures var (w', verdict) := MachineStep(w, b, env);
            var row, row' := w.bookings[b], w'.bookings[b];
            && SameOrder(row, row')
            && (verdict == Continues ==> Unfinished(row'.refund) && row'.retries == row.retries
                                         && StepsLeft(row'.refund) == StepsLeft(row.refund) - 1)
            && (verdict == Returns ==> row'.refund == Some(Completed) && row'.retries == row.retries)
            && (verdict == Throws ==> row'.refund != Some(Completed) || row'.retries > row.retries)
  {
    hide Payments.GiveBack, Payments.RefundSucceeded;
  }

  lemma {:induction false} RunAnswers(w: World, b: nat, env: DriveEnv, n: nat)
    requires b < |w.bookings| && Unfinished(w.bookings[b].refund) && n >= StepsLeft(w.bookings[b].refund)
    ensures var row, row' := w.bookings[b], RunMachine(w, b, env, n).bookings[b];
            && SameOrder(row, row')
            && (DriveVerdict(w, b, env, n) == Returns
               <==> row'.refund == Some(Completed) && row'.retries == row.retries)
            && (DriveVerdict(w, b, env, n) == Returns || DriveVerdict(w, b, env, n) == Throws)
    decreases n
  {
    hide MachineStep;
    StepAnswers(w, b, env);
    var (w', verdict) := MachineStep(w, b, env);
    if verdict == Continues {
      RunAnswers(w', b, env, n - 1);
    }
  }

  /** A booking whose refund is over is left as it is, but for the retry that the catch counts on a failed one. */
  lemma SettledAnswers(w: World, b: nat, env: DriveEnv)
    requires b < |w.bookings|
    ensures w.bookings[b].refund == Some(Completed) ==>
              Drive(w, b, env) == w && DriveVerdict(w, b, env, MAX_STEPS) == Returns
    ensures w.bookings[b].refund == Some(Failed) ==>
              && DriveVerdict(w, b, env, MAX_STEPS) == Throws
              && Drive(w, b, env) == Caught(w, b, w.bookings[b], env.recorded)
  {
    hide Payments.GiveBack, Payments.RefundSucceeded;
  }

  /** A cancellation returns if and only if its own call ended the refund, COMPLETED without a counted retry, or
      found it COMPLETED; the key of the first cancellation of the booking stays, and so does the order. */
  lemma {:induction false} CancelAnswers(w: World, b: nat, key: Id, env: DriveEnv)
    requires b < |w.bookings|
    ensures var row, w1 := w.bookings[b], InitiateRefund(w, b, key);
            var row', verdict := Drive(w1, b, env).bookings[b], DriveVerdict(w1, b, env, MAX_STEPS);
            && (verdict == Returns || verdict == Throws)
            && (verdict == Returns <==> row'.refund == Some(Completed) && row'.retries == row.retries)
            && row'.refundKey == (if row.refund.None? then Some(key) else row.refundKey)
            && row'.user == row.user && row'.event == row.event && row'.items == row.items && row'.total == row.total
  {
    hide RunMachine, DriveVerdict;
    var w1 := InitiateRefund(w, b, key);
    if Unfinished(w1.bookings[b].refund) {
      RunAnswers(w1, b, env, MAX_STEPS);
    } else {
      SettledAnswers(w1, b, env);
      assert w1.bookings[b] == w.bookings[b];
      var r := w1.bookings[b].refund.value;
      assert r.Completed? || r.Failed?;
    }
  }

  /** The first cancellation of a booking, when nothing strikes: it returns if and only if the refund call succeeds,
      and then the booking is REFUNDED with its seats, tickets and outbox row; otherwise the refund is FAILED. */
  lemma {:induction false} FirstCancel(w: World, b: nat, key: Id, a: Payments.Answer)
    requires b < |w.bookings| && w.bookings[b].refund.None?
    ensures var w1 := InitiateRefund(w, b, key);
            var d := Drive(w1, b, Smooth(a));
            && d.pay == Payments.GiveBack(w.pay, b, key, a).db
            && (DriveVerdict(w1, b, Smooth(a), MAX_STEPS) == Returns <==>
                Payments.RefundSucceeded(Payments.GiveBack(w.pay, b, key, a)))
            && (DriveVerdict(w1, b, Smooth(a), MAX_STEPS) == Returns ==> Refunded(w1, d, b))
            && (DriveVerdict(w1, b, Smooth(a), MAX_STEPS) != Returns ==> RefundFailed(w1, d, b))
  {
    hide Payments.GiveBack, Payments.RefundSucceeded, RunMachine, DriveVerdict;
    RefundCallSucceedsIff(InitiateRefund(w, b, key), b, a);
    UninterruptedRun(InitiateRefund(w, b, key), b, a);
    CancelAnswers(w, b, key, Smooth(a));
  }
}
