/** The saga's operations are runs of the two transition systems: what MoneyLedger and SalesModel say of every run
    they say of `createBooking` and of every drive of the refund machine. */
module SagaSteps {
  import opened Basics
  import opened SeatStore
  import opened BookingSaga
  import MoneyLedger
  import SalesModel
  import Payments

  // ----- the ledger

  /** A `createBooking` call that no other step interrupts is three ledger steps. */
  lemma {:induction false} CreateBookingIsLedgerRun(l: MoneyLedger.Ledger, u: Id, e: Id, ids: seq<Id>, key: Id,
                                                    env: CreateEnv)
    requires |l.traces| == |l.w.bookings| && Bookable(l.w.seats, u, e, ids) && env.persists
    ensures var b := |l.w.bookings|;
            var placed := MoneyLedger.Apply(l, MoneyLedger.Place(u, e, ids, key));
            var paid := MoneyLedger.Apply(placed, MoneyLedger.Pay(b, env.providerKnown, env.answer));
            var l' := MoneyLedger.Apply(paid, MoneyLedger.Conclude(b, env.commits, env.cancelling));
            l'.w == CreateBooking(l.w, u, e, ids, key, env)
  {
    hide Payments.Charge, Settle, NewBooking, Bookable, OutcomeOf;
    var b := |l.w.bookings|;
    var placed := MoneyLedger.Apply(l, MoneyLedger.Place(u, e, ids, key));
    var paid := MoneyLedger.Apply(placed, MoneyLedger.Pay(b, env.providerKnown, env.answer));
    assert placed.w.bookings == l.w.bookings + [NewBooking(l.w.seats, u, e, ids)];
  }

  // ----- the seats

  /** The system is in the state of the world, as far as it looks at it: bookings without their retry counts, and
      the seat stores. */
  predicate Shows(s: SalesModel.Sys, w: World) {
    && s.st == w.seats && |s.bookings| == |w.bookings| == |s.tracks|
    && forall b :: 0 <= b < |w.bookings| ==> s.bookings[b] == w.bookings[b].(retries := s.bookings[b].retries)
  }

  function Run(s: SalesModel.Sys, steps: seq<SalesModel.Step>): SalesModel.Sys
    decreases |steps|
  {
    if steps == [] then s else Run(SalesModel.After(s, steps[0]), steps[1..])
  }

  lemma OrderShows(s: SalesModel.Sys, w: World, u: Id, e: Id, ids: seq<Id>)
    requires Shows(s, w)
    ensures Shows(SalesModel.After(s, SalesModel.Order(u, e, ids)), Persist(w, u, e, ids))
  {
    hide NewBooking;
  }

  lemma ConcludeShows(s: SalesModel.Sys, w: World, b: nat, outcome: PaymentOutcome, commits: bool, c: Cancelling)
    requires Shows(s, w) && b < |w.bookings|
    ensures Shows(SalesModel.After(s, SalesModel.Conclude(b, outcome, commits, c)), Settle(w, b, outcome, commits, c))
  {
    hide ReleaseUpTo;
    assert SeatsOf(s.bookings[b]) == SeatsOf(w.bookings[b]);
  }

  /** A `createBooking` call is an order and its conclusion. */
  lemma {:induction false} CreateBookingIsSalesRun(s: SalesModel.Sys, w: World, u: Id, e: Id, ids: seq<Id>, key: Id,
                                                   env: CreateEnv)
    requires Shows(s, w) && Bookable(w.seats, u, e, ids) && env.persists
    ensures var b, w1 := |w.bookings|, Persist(w, u, e, ids);
            var c := Payments.Charge(w.pay, b, key, w1.bookings[b].total, env.providerKnown, env.answer);
            var ordered := SalesModel.After(s, SalesModel.Order(u, e, ids));
            var s' := SalesModel.After(ordered, SalesModel.Conclude(b, OutcomeOf(c), env.commits, env.cancelling));
            Shows(s', CreateBooking(w, u, e, ids, key, env))
  {
    hide Payments.Charge, NewBooking, Bookable, OutcomeOf, Settle, SalesModel.After;
    var b, w1 := |w.bookings|, Persist(w, u, e, ids);
    var c := Payments.Charge(w.pay, b, key, w1.bookings[b].total, env.providerKnown, env.answer);
    OrderShows(s, w, u, e, ids);
    var ordered := SalesModel.After(s, SalesModel.Order(u, e, ids));
    assert Shows(ordered, w1.(pay := c.db));
    ConcludeShows(ordered, w1.(pay := c.db), b, OutcomeOf(c), env.commits, env.cancelling);
  }

  /** The step of the sales system that one iteration of the refund machine takes, if any. */
  function StepOf(w: World, b: nat, env: DriveEnv): seq<SalesModel.Step>
    requires b < |w.bookings|
  {
    match w.bookings[b].refund
    case Some(RefundInitiated) =>
      if env.fault == AtRefund || Unheard(env) then []
      else
        var key := w.bookings[b].refundKey.GetOr("");
        [SalesModel.RefundReply(b, Payments.RefundSucceeded(Payments.GiveBack(w.pay, b, key, env.answer)))]
    case Some(PaymentRefunded) =>
      if env.fault == AtSeatRelease then []
      else [SalesModel.RefundRelease(b, env.release, env.fault != SavingReleased || env.recorded)]
    case Some(SeatsReleased) =>
      if env.fault == AtTicketCancel || (env.fault == AtCommit && !env.recorded) then []
      else [SalesModel.RefundDone(b)]
    case _ => []
  }

  lemma OneStep(s: SalesModel.Sys, step: SalesModel.Step)
    ensures Run(s, [step]) == SalesModel.After(s, step) && Run(s, []) == s
  {
    hide SalesModel.After;
    assert [step][1..] == [];
  }

  lemma RefundCallIsSalesStep(s: SalesModel.Sys, w: World, b: nat, env: DriveEnv)
    requires Shows(s, w) && b < |w.bookings| && w.bookings[b].refund == Some(RefundInitiated)
    ensures Shows(Run(s, StepOf(w, b, env)), RefundCallStep(w, b, env).0)
  {
    hide Payments.GiveBack, Payments.RefundSucceeded, Run;
    var reply := Payments.GiveBack(w.pay, b, w.bookings[b].refundKey.GetOr(""), env.answer);
    OneStep(s, SalesModel.RefundReply(b, Payments.RefundSucceeded(reply)));
  }

  lemma ReleaseIsSalesStep(s: SalesModel.Sys, w: World, b: nat, env: DriveEnv)
    requires Shows(s, w) && b < |w.bookings| && w.bookings[b].refund == Some(PaymentRefunded)
    ensures Shows(Run(s, StepOf(w, b, env)), SeatReleaseStep(w, b, env).0)
  {
    hide ReleaseSoldUpTo, Run;
    assert SeatsOf(s.bookings[b]) == SeatsOf(w.bookings[b]);
    OneStep(s, SalesModel.RefundRelease(b, env.release, env.fault != SavingReleased || env.recorded));
  }

  lemma CompletionIsSalesStep(s: SalesModel.Sys, w: World, b: nat, env: DriveEnv)
    requires Shows(s, w) && b < |w.bookings| && w.bookings[b].refund == Some(SeatsReleased)
    ensures Shows(Run(s, StepOf(w, b, env)), CompleteStep(w, b, env).0)
  {
    hide Run;
    OneStep(s, SalesModel.RefundDone(b));
  }

  lemma IterationIsSalesStep(s: SalesModel.Sys, w: World, b: nat, env: DriveEnv)
    requires Shows(s, w) && b < |w.bookings|
    ensures Shows(Run(s, StepOf(w, b, env)), MachineStep(w, b, env).0)
  {
    hide RefundCallStep, SeatReleaseStep, CompleteStep, SalesModel.After;
    match w.bookings[b].refund
    case Some(RefundInitiated) => RefundCallIsSalesStep(s, w, b, env);
    case Some(PaymentRefunded) => ReleaseIsSalesStep(s, w, b, env);
    case Some(SeatsReleased) => CompletionIsSalesStep(s, w, b, env);
    case _ =>
  }

  function StepsOf(w: World, b: nat, env: DriveEnv, n: nat): seq<SalesModel.Step>
    requires b < |w.bookings|
    decreases n
  {
    if n == 0 then [] else
      var (w', verdict) := MachineStep(w, b, env);
      StepOf(w, b, env) + if verdict == Continues then StepsOf(w', b, env, n - 1) else []
  }

  lemma {:induction false} RunAppend(s: SalesModel.Sys, first: seq<SalesModel.Step>, more: seq<SalesModel.Step>)
    ensures Run(s, first + more) == Run(Run(s, first), more)
    decreases |first|
  {
    if first == [] {
      assert first + more == more;
    } else {
      assert (first + more)[1..] == first[1..] + more;
      RunAppend(SalesModel.After(s, first[0]), first[1..], more);
    }
  }

  /** A drive of the refund machine, whatever strikes, is a run of refund steps. */
  lemma {:induction false} DriveIsSalesRun(s: SalesModel.Sys, w: World, b: nat, env: DriveEnv, n: nat)
    requires Shows(s, w) && b < |w.bookings|
    ensures Shows(Run(s, StepsOf(w, b, env, n)), RunMachine(w, b, env, n))
    decreases n
  {
    hide MachineStep, StepOf, Shows, Run;
    if n == 0 {
      NoSteps(s);
    } else {
      IterationIsSalesStep(s, w, b, env);
      var (w', verdict) := MachineStep(w, b, env);
      var steps := StepOf(w, b, env);
      if verdict == Continues {
        DriveIsSalesRun(Run(s, steps), w', b, env, n - 1);
        RunAppend(s, steps, StepsOf(w', b, env, n - 1));
      } else {
        assert steps + [] == steps;
      }
    }
  }

  lemma NoSteps(s: SalesModel.Sys)
    ensures Run(s, []) == s
  {
  }
}
