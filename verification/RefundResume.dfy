/** Re-driving an interrupted refund: which faults are made good, and which change where it ends. */
module RefundResume {
  import opened Basics
  import opened SeatStore
  import opened BookingSaga
  import Payments
  import Tickets

  /** The persisted state of everything, without the retry counter of booking b. */
  function Forget(w: World, b: nat): World
    requires b < |w.bookings|
  {
    SetBooking(w, b, w.bookings[b].(retries := 0))
  }

  predicate Settled(w: World, b: nat)
    requires b < |w.bookings|
  {
    w.bookings[b].refund == Some(Completed) || w.bookings[b].refund == Some(Failed)
  }

  /** Where the uninterrupted drive leads, up to the retry counter. */
  function Final(w: World, b: nat, a: Payments.Answer): World
    requires b < |w.bookings|
  {
    Forget(Drive(w, b, Smooth(a)), b)
  }

  // ----- what can be looked up beforehand

  function KeyOf(w: World, b: nat): Id
    requires b < |w.bookings|
  {
    w.bookings[b].refundKey.GetOr("")
  }

  /** The booking has a SUCCEEDED payment, and the row already there for its key is PROCESSED, or there is
      none and the gateway accepts. */
  predicate CallSucceeds(w: World, b: nat, a: Payments.Answer)
    requires b < |w.bookings|
  {
    var row := Payments.RefundByKey(w.pay.refunds, KeyOf(w, b));
    && Payments.SucceededOf(w.pay.payments, b).Some?
    && if row.Some? then w.pay.refunds[row.value].status == Payments.Processed else a.Accepted?
  }

  lemma RefundCallSucceedsIff(w: World, b: nat, a: Payments.Answer)
    requires b < |w.bookings|
    ensures Payments.RefundSucceeded(Payments.GiveBack(w.pay, b, KeyOf(w, b), a)) <==> CallSucceeds(w, b, a)
  {
  }

  /** The payment service after the refund call, if it was made. */
  function PaidBack(w: World, b: nat, called: Option<Payments.Answer>): Payments.Db
    requires b < |w.bookings|
  {
    if called.Some? then Payments.GiveBack(w.pay, b, KeyOf(w, b), called.value).db else w.pay
  }

  /** A repetition of the call that got answer a succeeds: it does not when the booking has one payment and
      the call was the first under its key. */
  predicate AgainSucceeds(w: World, b: nat, a: Payments.Answer)
    requires b < |w.bookings|
  {
    Payments.RefundSucceeded(Payments.GiveBack(PaidBack(w, b, Some(a)), b, KeyOf(w, b), a))
  }

  lemma OnePaymentIsNotRefundedAgain(w: World, b: nat, a: Payments.Answer)
    requires b < |w.bookings| && Payments.RefundByKey(w.pay.refunds, KeyOf(w, b)).None?
    requires forall i, j :: 0 <= i < j < |w.pay.payments| ==> w.pay.payments[i].booking != w.pay.payments[j].booking
    ensures !AgainSucceeds(w, b, a)
  {
    CallTwice(w.pay, b, KeyOf(w, b), a, a);
    if CallSucceeds(w, b, a) {
      Payments.LostReplyEndsInFailure(w.pay, b, KeyOf(w, b), a);
    }
  }

  /** A repeated call changes nothing, whatever the gateway would answer, and fails where the first did. */
  lemma CallTwice(db: Payments.Db, b: nat, key: Id, a: Payments.Answer, a': Payments.Answer)
    ensures var first := Payments.GiveBack(db, b, key, a);
            var again := Payments.GiveBack(first.db, b, key, a');
            && again == Payments.GiveBack(first.db, b, key, a) && again.db == first.db
            && (!Payments.RefundSucceeded(first) ==> !Payments.RefundSucceeded(again))
  {
  }

  // ----- how far a refund has got

  /** Refund state and retry counter of the booking; the answer that the refund call got, how far its seats
      were released, and whether its tickets were cancelled and its outbox row was written. */
  datatype Progress = Progress(
    refund: Option<RefundState>,
    retries: nat,
    called: Option<Payments.Answer>,
    freed: Reach,
    cancelled: bool,
    logged: bool)

  function Start(w: World, b: nat): Progress
    requires b < |w.bookings|
  {
    Progress(w.bookings[b].refund, w.bookings[b].retries, None, RolledBack, false, false)
  }

  function RowAt(row: Booking, p: Progress): Booking {
    row.(refund := p.refund, retries := p.retries,
         status := if p.refund == Some(Completed) then RefundedBooking else row.status)
  }

  function SeatsAt(w: World, b: nat, freed: Reach): Store
    requires b < |w.bookings|
  {
    ReleaseSoldUpTo(w.seats, w.bookings[b].event, SeatsOf(w.bookings[b]), freed)
  }

  /** The whole state that a refund has led to, from where it started. */
  function WorldAt(w: World, b: nat, p: Progress): (w': World)
    requires b < |w.bookings|
    ensures |w'.bookings| == |w.bookings|
  {
    World(w.bookings[b := RowAt(w.bookings[b], p)],
          if p.logged then w.outbox + [OutboxRow(BookingRefunded, b)] else w.outbox,
          if p.cancelled then Tickets.CancelAll(w.tickets, b) else w.tickets,
          PaidBack(w, b, p.called),
          SeatsAt(w, b, p.freed))
  }

  function Counted(p: Progress, recorded: bool): Progress {
    if recorded then p.(retries := p.retries + 1) else p
  }

  /** A save that throws: the outer catch saves what it would have saved, or nothing is saved. */
  function Lands(before: Progress, after: Progress, recorded: bool): Progress {
    if recorded then Counted(after, true) else before
  }

  function Rank(r: Reach): nat {
    match r
    case RolledBack => 0
    case Finished => 2
    case _ => 1
  }

  function Further(r: Reach, r': Reach): Reach {
    if Rank(r) < Rank(r') then r' else r
  }

  function CallProgress(w: World, b: nat, p: Progress, env: DriveEnv): (Progress, Verdict)
    requires b < |w.bookings|
  {
    if env.fault == AtRefund then (Counted(p, env.recorded), Throws)
    else
      var ok := if p.called.Some? then AgainSucceeds(w, b, p.called.value) else CallSucceeds(w, b, env.answer);
      var p' := if p.called.Some? then p else p.(called := Some(env.answer));
      var moved := p'.(refund := Some(if ok then PaymentRefunded else Failed));
      if env.fault == SavingReply then (Lands(p', moved, env.recorded), Throws)
      else if ok then (moved, Continues)
      else (Counted(moved, env.recorded), Throws)
  }

  function ReleaseProgress(p: Progress, env: DriveEnv): (Progress, Verdict) {
    if env.fault == AtSeatRelease then (Counted(p, env.recorded), Throws)
    else
      var p' := p.(freed := Further(p.freed, env.release));
      var moved := p'.(refund := Some(SeatsReleased));
      if env.fault == SavingReleased then (Lands(p', moved, env.recorded), Throws) else (moved, Continues)
  }

  function CompleteProgress(p: Progress, env: DriveEnv): Progress {
    if env.fault == AtTicketCancel then Counted(p, env.recorded)
    else
      var p' := p.(cancelled := true);
      var done := p'.(refund := Some(Completed));
      if env.fault == AtCommit then Lands(p', done, env.recorded) else done.(logged := true)
  }

  function FromRefunded(p: Progress, env: DriveEnv): Progress {
    var (p', verdict) := ReleaseProgress(p, env);
    if verdict == Continues then CompleteProgress(p', env) else p'
  }

  function FromInitiated(w: World, b: nat, p: Progress, env: DriveEnv): Progress
    requires b < |w.bookings|
  {
    var (p', verdict) := CallProgress(w, b, p, env);
    if verdict == Continues then FromRefunded(p', env) else p'
  }

  /** One drive. */
  function DriveProgress(w: World, b: nat, p: Progress, env: DriveEnv): Progress
    requires b < |w.bookings|
  {
    match p.refund
    case Some(RefundInitiated) => FromInitiated(w, b, p, env)
    case Some(PaymentRefunded) => FromRefunded(p, env)
    case Some(SeatsReleased) => CompleteProgress(p, env)
    case Some(Completed) => p
    case _ => Counted(p, env.recorded)
  }

  // ----- the steps of the state machine are steps of progress

  lemma FreedTwice(st: Store, e: Id, ids: seq<Id>, r: Reach, r': Reach)
    ensures ReleaseSoldUpTo(ReleaseSoldUpTo(st, e, ids, r), e, ids, r') == ReleaseSoldUpTo(st, e, ids, Further(r, r'))
  {
    var done := ReleaseSoldSeats(st, e, ids);
    assert Restatus(done.rows, Keys(e, ids), Available) == done.rows;
    assert PutAvail(done.avail, Keys(e, ids), Available) == done.avail;
  }

  lemma {:induction false} CancelledTwice(ts: seq<Tickets.Ticket>, b: nat)
    ensures Tickets.CancelAll(Tickets.CancelAll(ts, b), b) == Tickets.CancelAll(ts, b)
  {
  }

  lemma RowKept(w: World, b: nat, p: Progress)
    requires b < |w.bookings|
    ensures var w' := WorldAt(w, b, p);
            && w'.bookings[b] == RowAt(w.bookings[b], p)
            && KeyOf(w', b) == KeyOf(w, b) && SeatsOf(w'.bookings[b]) == SeatsOf(w.bookings[b])
            && w'.bookings[b].event == w.bookings[b].event
  {
    hide PaidBack, SeatsAt, Tickets.CancelAll;
  }

  /** Saving the row of another progress with the same effects. */
  lemma SavesTo(w: World, b: nat, p: Progress, q: Progress)
    requires b < |w.bookings|
    ensures SetBooking(WorldAt(w, b, p), b, RowAt(w.bookings[b], q)) ==
            WorldAt(w, b, p.(refund := q.refund, retries := q.retries))
  {
    hide PaidBack, SeatsAt, Tickets.CancelAll;
  }

  lemma CatchesTo(w: World, b: nat, p: Progress, q: Progress, recorded: bool)
    requires b < |w.bookings| && q == p.(refund := q.refund) && p.refund != Some(Completed)
    ensures Caught(WorldAt(w, b, p), b, RowAt(w.bookings[b], q), recorded) == WorldAt(w, b, Lands(p, q, recorded))
  {
    hide WorldAt;
    SavesTo(w, b, p, Counted(q, true));
  }

  lemma CallsTo(w: World, b: nat, p: Progress, env: DriveEnv)
    requires b < |w.bookings| && p.refund == Some(RefundInitiated)
    ensures var (p', verdict) := CallProgress(w, b, p, env);
            RefundCallStep(WorldAt(w, b, p), b, env) == (WorldAt(w, b, p'), verdict)
  {
    hide WorldAt, Payments.GiveBack, Payments.RefundSucceeded, CallSucceeds;
    RowKept(w, b, p);
    if env.fault == AtRefund {
      CatchesTo(w, b, p, p, env.recorded);
    } else {
      var p' := if p.called.Some? then p else p.(called := Some(env.answer));
      CallReplies(w, b, p, env.answer, p');
      var ok := if p.called.Some? then AgainSucceeds(w, b, p.called.value) else CallSucceeds(w, b, env.answer);
      var moved := p'.(refund := Some(if ok then PaymentRefunded else BookingSaga.Failed));
      SavesTo(w, b, p', moved);
      CatchesTo(w, b, p', moved, env.recorded);
      CatchesTo(w, b, moved, moved, env.recorded);
    }
  }

  lemma CallReplies(w: World, b: nat, p: Progress, a: Payments.Answer, p': Progress)
    requires b < |w.bookings| && p' == if p.called.Some? then p else p.(called := Some(a))
    ensures var reply := Payments.GiveBack(WorldAt(w, b, p).pay, b, KeyOf(w, b), a);
            && WorldAt(w, b, p).(pay := reply.db) == WorldAt(w, b, p')
            && (Payments.RefundSucceeded(reply) <==>
                if p.called.Some? then AgainSucceeds(w, b, p.called.value) else CallSucceeds(w, b, a))
  {
    hide Payments.GiveBack, Payments.RefundSucceeded, CallSucceeds, SeatsAt, Tickets.CancelAll;
    if p.called.Some? {
      CallTwice(w.pay, b, KeyOf(w, b), p.called.value, a);
    } else {
      RefundCallSucceedsIff(w, b, a);
    }
  }

  lemma ReleasesTo(w: World, b: nat, p: Progress, env: DriveEnv)
    requires b < |w.bookings| && p.refund == Some(PaymentRefunded)
    ensures var (p', verdict) := ReleaseProgress(p, env);
            SeatReleaseStep(WorldAt(w, b, p), b, env) == (WorldAt(w, b, p'), verdict)
  {
    hide WorldAt, ReleaseSoldUpTo;
    RowKept(w, b, p);
    if env.fault == AtSeatRelease {
      CatchesTo(w, b, p, p, env.recorded);
    } else {
      var p' := p.(freed := Further(p.freed, env.release));
      SeatsMove(w, b, p, env.release);
      var moved := p'.(refund := Some(SeatsReleased));
      SavesTo(w, b, p', moved);
      CatchesTo(w, b, p', moved, env.recorded);
    }
  }

  lemma SeatsMove(w: World, b: nat, p: Progress, r: Reach)
    requires b < |w.bookings|
    ensures var row := w.bookings[b];
            WorldAt(w, b, p).(seats := ReleaseSoldUpTo(WorldAt(w, b, p).seats, row.event, SeatsOf(row), r)) ==
            WorldAt(w, b, p.(freed := Further(p.freed, r)))
  {
    hide ReleaseSoldUpTo, PaidBack, Tickets.CancelAll;
    FreedTwice(w.seats, w.bookings[b].event, SeatsOf(w.bookings[b]), p.freed, r);
  }

  lemma CompletesTo(w: World, b: nat, p: Progress, env: DriveEnv)
    requires b < |w.bookings| && p.refund == Some(SeatsReleased) && !p.logged
    ensures CompleteStep(WorldAt(w, b, p), b, env).0 == WorldAt(w, b, CompleteProgress(p, env))
    ensures CompleteStep(WorldAt(w, b, p), b, env).1 != Continues
  {
    hide WorldAt, Tickets.CancelAll;
    RowKept(w, b, p);
    if env.fault == AtTicketCancel {
      CatchesTo(w, b, p, p, env.recorded);
    } else {
      var p' := p.(cancelled := true);
      TicketsMove(w, b, p);
      var done := p'.(refund := Some(Completed));
      assert RowAt(w.bookings[b], done) ==
             WorldAt(w, b, p).bookings[b].(status := RefundedBooking, refund := Some(Completed));
      SavesTo(w, b, p', done);
      CatchesTo(w, b, p', done, env.recorded);
      LogMoves(w, b, done, p);
    }
  }

  lemma TicketsMove(w: World, b: nat, p: Progress)
    requires b < |w.bookings|
    ensures WorldAt(w, b, p).(tickets := Tickets.CancelAll(WorldAt(w, b, p).tickets, b)) ==
            WorldAt(w, b, p.(cancelled := true))
  {
    hide PaidBack, SeatsAt, Tickets.CancelAll;
    CancelledTwice(w.tickets, b);
  }

  lemma LogMoves(w: World, b: nat, p: Progress, q: Progress)
    requires b < |w.bookings| && !p.logged && !q.logged
    ensures WorldAt(w, b, p).(outbox := WorldAt(w, b, q).outbox + [OutboxRow(BookingRefunded, b)]) ==
            WorldAt(w, b, p.(logged := true))
  {
    hide PaidBack, SeatsAt, Tickets.CancelAll;
  }

  lemma RunUnrolls(w: World, b: nat, env: DriveEnv, n: nat)
    requires b < |w.bookings|
    ensures n == 0 ==> RunMachine(w, b, env, n) == w
    ensures var (w', verdict) := MachineStep(w, b, env);
            n > 0 ==> RunMachine(w, b, env, n) == if verdict == Continues then RunMachine(w', b, env, n - 1) else w'
  {
  }

  lemma RunFromReleased(w: World, b: nat, p: Progress, env: DriveEnv, n: nat)
    requires b < |w.bookings| && p.refund == Some(SeatsReleased) && !p.logged && n >= 1
    ensures RunMachine(WorldAt(w, b, p), b, env, n) == WorldAt(w, b, CompleteProgress(p, env))
  {
    hide WorldAt, RunMachine, CompleteStep, CompleteProgress;
    RowKept(w, b, p);
    RunUnrolls(WorldAt(w, b, p), b, env, n);
    CompletesTo(w, b, p, env);
  }

  lemma RunFromRefunded(w: World, b: nat, p: Progress, env: DriveEnv, n: nat)
    requires b < |w.bookings| && p.refund == Some(PaymentRefunded) && !p.logged && n >= 2
    ensures RunMachine(WorldAt(w, b, p), b, env, n) == WorldAt(w, b, FromRefunded(p, env))
  {
    hide WorldAt, RunMachine, SeatReleaseStep, CompleteProgress;
    RowKept(w, b, p);
    RunUnrolls(WorldAt(w, b, p), b, env, n);
    ReleasesTo(w, b, p, env);
    var (p', verdict) := ReleaseProgress(p, env);
    if verdict == Continues {
      RunFromReleased(w, b, p', env, n - 1);
    }
  }

  lemma RunFromInitiated(w: World, b: nat, p: Progress, env: DriveEnv, n: nat)
    requires b < |w.bookings| && p.refund == Some(RefundInitiated) && !p.logged && n >= 3
    ensures RunMachine(WorldAt(w, b, p), b, env, n) == WorldAt(w, b, FromInitiated(w, b, p, env))
  {
    hide WorldAt, RunMachine, RefundCallStep, FromRefunded, CallSucceeds, AgainSucceeds;
    RowKept(w, b, p);
    RunUnrolls(WorldAt(w, b, p), b, env, n);
    CallsTo(w, b, p, env);
    var (p', verdict) := CallProgress(w, b, p, env);
    if verdict == Continues {
      RunFromRefunded(w, b, p', env, n - 1);
    }
  }

  lemma StartIsHere(w: World, b: nat)
    requires b < |w.bookings| && Unfinished(w.bookings[b].refund)
    ensures WorldAt(w, b, Start(w, b)) == w
  {
    hide ReleaseSoldSeats;
    assert w.bookings[b := RowAt(w.bookings[b], Start(w, b))] == w.bookings;
  }

  lemma RunReaches(w: World, b: nat, p: Progress, env: DriveEnv, n: nat)
    requires b < |w.bookings| && Unfinished(p.refund) && !p.logged && n >= 3
    ensures RunMachine(WorldAt(w, b, p), b, env, n) == WorldAt(w, b, DriveProgress(w, b, p, env))
  {
    hide WorldAt, RunMachine, FromInitiated, FromRefunded, CompleteProgress;
    match p.refund
    case Some(RefundInitiated) => RunFromInitiated(w, b, p, env, n);
    case Some(PaymentRefunded) => RunFromRefunded(w, b, p, env, n);
    case Some(SeatsReleased) => RunFromReleased(w, b, p, env, n);
  }

  /** Three iterations settle what a drive of an unfinished refund does, so that the bound of five is never
      reached. */
  lemma {:induction false} ThreeStepsSuffice(w: World, b: nat, env: DriveEnv, n: nat)
    requires b < |w.bookings| && Unfinished(w.bookings[b].refund) && n >= 3
    ensures RunMachine(w, b, env, n) == RunMachine(w, b, env, 3)
  {
    hide WorldAt, RunMachine, DriveProgress;
    StartIsHere(w, b);
    RunReaches(w, b, Start(w, b), env, n);
    RunReaches(w, b, Start(w, b), env, 3);
  }

  /** One drive, whatever strikes it, leaves exactly this state. */
  lemma {:induction false} DriveReaches(w: World, b: nat, p: Progress, env: DriveEnv)
    requires b < |w.bookings| && Unfinished(p.refund) && !p.logged
    ensures Drive(WorldAt(w, b, p), b, env) == WorldAt(w, b, DriveProgress(w, b, p, env))
  {
    hide WorldAt, RunMachine, DriveProgress;
    RunReaches(w, b, p, env, MAX_STEPS);
  }

  // ----- schedules of drives

  /** The recovery worker's ticks for one booking, each with its own troubles. */
  function Recover(w: World, b: nat, envs: seq<DriveEnv>): (w': World)
    requires b < |w.bookings|
    ensures |w'.bookings| == |w.bookings|
  {
    if envs == [] then w else
      var n := |envs| - 1;
      RecoverOne(Recover(w, b, envs[..n]), b, envs[n])
  }

  /** The same on progress. */
  function Plan(w: World, b: nat, envs: seq<DriveEnv>): Progress
    requires b < |w.bookings|
  {
    if envs == [] then Start(w, b) else
      var n := |envs| - 1;
      var p := Plan(w, b, envs[..n]);
      if Unfinished(p.refund) && p.retries < MAX_RETRIES then DriveProgress(w, b, p, envs[n]) else p
  }

  /** What every progress from here satisfies. */
  predicate Well(w: World, b: nat, p: Progress)
    requires b < |w.bookings|
  {
    var from := w.bookings[b].refund;
    && (Unfinished(p.refund) || p.refund == Some(Completed) || p.refund == Some(Failed))
    && (p.logged ==> p.refund == Some(Completed))
    && (p.refund == Some(Completed) ==> p.cancelled)
    && (from != Some(RefundInitiated) ==>
         p.called.None? && p.refund != Some(RefundInitiated) && p.refund != Some(Failed))
    && (from == Some(RefundInitiated) && p.refund != Some(RefundInitiated) ==> p.called.Some?)
    && (p.called.Some? && p.refund != Some(RefundInitiated) && p.refund != Some(Failed) ==>
         CallSucceeds(w, b, p.called.value))
    && (p.refund == Some(RefundInitiated) || p.refund == Some(Failed) ==> p.freed == RolledBack && !p.cancelled)
    && (from == Some(SeatsReleased) ==> p.freed == RolledBack && p.refund != Some(PaymentRefunded))
  }

  lemma CompleteKeepsWell(w: World, b: nat, p: Progress, env: DriveEnv)
    requires b < |w.bookings| && Well(w, b, p) && p.refund == Some(SeatsReleased)
    ensures Well(w, b, CompleteProgress(p, env))
  {
    hide CallSucceeds;
  }

  lemma ReleaseKeepsWell(w: World, b: nat, p: Progress, env: DriveEnv)
    requires b < |w.bookings| && Well(w, b, p) && p.refund == Some(PaymentRefunded)
    ensures Well(w, b, FromRefunded(p, env))
  {
    hide CallSucceeds, CompleteProgress;
    var (p', verdict) := ReleaseProgress(p, env);
    if verdict == Continues {
      CompleteKeepsWell(w, b, p', env);
    }
  }

  lemma CallKeepsWell(w: World, b: nat, p: Progress, env: DriveEnv)
    requires b < |w.bookings| && Well(w, b, p) && p.refund == Some(RefundInitiated)
    ensures Well(w, b, FromInitiated(w, b, p, env))
  {
    hide CallSucceeds, AgainSucceeds, FromRefunded;
    if p.called.Some? {
      AgainOnlyAfterSuccess(w, b, p.called.value);
    }
    var (p', verdict) := CallProgress(w, b, p, env);
    if verdict == Continues {
      ReleaseKeepsWell(w, b, p', env);
    }
  }

  lemma AgainOnlyAfterSuccess(w: World, b: nat, a: Payments.Answer)
    requires b < |w.bookings|
    ensures AgainSucceeds(w, b, a) ==> CallSucceeds(w, b, a)
  {
    hide Payments.GiveBack, Payments.RefundSucceeded, CallSucceeds;
    CallTwice(w.pay, b, KeyOf(w, b), a, a);
    RefundCallSucceedsIff(w, b, a);
  }

  lemma DriveKeepsWell(w: World, b: nat, p: Progress, env: DriveEnv)
    requires b < |w.bookings| && Well(w, b, p) && Unfinished(p.refund)
    ensures Well(w, b, DriveProgress(w, b, p, env))
  {
    hide Well, FromInitiated, FromRefunded, CompleteProgress;
    match p.refund
    case Some(RefundInitiated) => CallKeepsWell(w, b, p, env);
    case Some(PaymentRefunded) => ReleaseKeepsWell(w, b, p, env);
    case Some(SeatsReleased) => CompleteKeepsWell(w, b, p, env);
  }

  lemma WellUnfinished(w: World, b: nat, p: Progress)
    requires b < |w.bookings| && Well(w, b, p)
    ensures Unfinished(p.refund) ==> !p.logged
  {
    hide CallSucceeds;
  }

  lemma StartIsWell(w: World, b: nat)
    requires b < |w.bookings| && Unfinished(w.bookings[b].refund)
    ensures Well(w, b, Start(w, b))
  {
    hide CallSucceeds;
  }

  /** After any schedule the whole state is the one of the plan. */
  lemma {:induction false} RecoverReaches(w: World, b: nat, envs: seq<DriveEnv>)
    requires b < |w.bookings| && Unfinished(w.bookings[b].refund)
    ensures Recover(w, b, envs) == WorldAt(w, b, Plan(w, b, envs)) && Well(w, b, Plan(w, b, envs))
  {
    hide WorldAt, Drive, Start, DriveProgress, Well;
    if envs == [] {
      StartIsHere(w, b);
      StartIsWell(w, b);
    } else {
      var n := |envs| - 1;
      RecoverReaches(w, b, envs[..n]);
      var p := Plan(w, b, envs[..n]);
      RowKept(w, b, p);
      WellUnfinished(w, b, p);
      if Unfinished(p.refund) && p.retries < MAX_RETRIES {
        DriveReaches(w, b, p, envs[n]);
        DriveKeepsWell(w, b, p, envs[n]);
      }
    }
  }

  // ----- where an uninterrupted drive leads

  function Smoothly(w: World, b: nat, a: Payments.Answer): Progress
    requires b < |w.bookings|
  {
    DriveProgress(w, b, Start(w, b), Smooth(a))
  }

  lemma FinalIs(w: World, b: nat, a: Payments.Answer)
    requires b < |w.bookings| && Unfinished(w.bookings[b].refund)
    ensures Final(w, b, a) == Forget(WorldAt(w, b, Smoothly(w, b, a)), b)
  {
    hide WorldAt, Drive, DriveProgress, Forget;
    StartIsHere(w, b);
    DriveReaches(w, b, Start(w, b), Smooth(a));
  }

  lemma SameEndIff(w: World, b: nat, p: Progress, q: Progress)
    requires b < |w.bookings|
    ensures Forget(WorldAt(w, b, p), b) == Forget(WorldAt(w, b, q), b) <==>
            && p.refund == q.refund && p.logged == q.logged
            && PaidBack(w, b, p.called) == PaidBack(w, b, q.called)
            && SeatsAt(w, b, p.freed) == SeatsAt(w, b, q.freed)
            && WorldAt(w, b, p).tickets == WorldAt(w, b, q).tickets
  {
    hide PaidBack, SeatsAt, Tickets.CancelAll;
    var v, v' := Forget(WorldAt(w, b, p), b), Forget(WorldAt(w, b, q), b);
    assert v.bookings == w.bookings[b := RowAt(w.bookings[b], p).(retries := 0)];
    assert v'.bookings == w.bookings[b := RowAt(w.bookings[b], q).(retries := 0)];
    assert v.bookings[b].refund == p.refund && v'.bookings[b].refund == q.refund;
    assert |v.outbox| == |w.outbox| + if p.logged then 1 else 0;
    assert |v'.outbox| == |w.outbox| + if q.logged then 1 else 0;
  }

  /** How far the seats must have been released in the end. */
  function SeatsDue(w: World, b: nat): Reach
    requires b < |w.bookings|
  {
    if w.bookings[b].refund == Some(SeatsReleased) then RolledBack else Finished
  }

  lemma SmoothlyIs(w: World, b: nat, a: Payments.Answer)
    requires b < |w.bookings| && Unfinished(w.bookings[b].refund)
    ensures var q := Smoothly(w, b, a);
            var initiated := w.bookings[b].refund == Some(RefundInitiated);
            && q.called == (if initiated then Some(a) else None)
            && (initiated && !CallSucceeds(w, b, a) ==>
                 q.refund == Some(Failed) && q.freed == RolledBack && !q.cancelled && !q.logged)
            && (initiated ==> CallSucceeds(w, b, a) ==> q.refund == Some(Completed))
            && (!initiated ==> q.refund == Some(Completed))
            && (q.refund == Some(Completed) ==> q.freed == SeatsDue(w, b) && q.cancelled && q.logged)
  {
    hide CallSucceeds, AgainSucceeds;
  }

  /** The answer is the one that the refund call got, if it was made. */
  predicate Answered(p: Progress, a: Payments.Answer) {
    p.called.Some? ==> p.called.value == a
  }

  lemma WellEndsIff(w: World, b: nat, p: Progress, a: Payments.Answer)
    requires b < |w.bookings| && Unfinished(w.bookings[b].refund) && Well(w, b, p) && Answered(p, a)
    requires p.refund == Some(Completed) || p.refund == Some(Failed)
    ensures Forget(WorldAt(w, b, p), b) == Final(w, b, a) <==>
            if p.refund == Some(Failed) then !CallSucceeds(w, b, a)
            else p.logged && SeatsAt(w, b, p.freed) == SeatsAt(w, b, SeatsDue(w, b))
  {
    hide Smoothly, SeatsAt, PaidBack, CallSucceeds, Final, Forget;
    FinalIs(w, b, a);
    SmoothlyIs(w, b, a);
    SameEndIff(w, b, p, Smoothly(w, b, a));
  }

  /** Drive c is the first that gets to the refund call. */
  predicate CallsFirst(envs: seq<DriveEnv>, c: nat) {
    c < |envs| && envs[c].fault != AtRefund && forall j: nat :: j < c ==> envs[j].fault == AtRefund
  }

  /** The answer that the refund call will get, if it is made. */
  ghost predicate IsAnswer(envs: seq<DriveEnv>, a: Payments.Answer) {
    forall c: nat :: CallsFirst(envs, c) ==> envs[c].answer == a
  }

  /** A refund call that was made was made by the first drive that got to it. */
  ghost predicate CalledIn(envs: seq<DriveEnv>, n: nat, p: Progress)
    requires n <= |envs|
  {
    && (p.called.Some? ==> exists c: nat :: CallsFirst(envs, c) && envs[c].answer == p.called.value)
    && (p.called.None? && p.refund == Some(RefundInitiated) && p.retries < MAX_RETRIES ==>
         forall j: nat :: j < n ==> envs[j].fault == AtRefund)
  }

  /** Only a drive that starts where no call was made yet makes one. */
  lemma DriveCalls(w: World, b: nat, p: Progress, env: DriveEnv)
    requires b < |w.bookings| && Unfinished(p.refund) && p.retries < MAX_RETRIES
    ensures var q := DriveProgress(w, b, p, env);
            && (q.called == p.called || (p.called.None? && p.refund == Some(RefundInitiated)
                                         && env.fault != AtRefund && q.called == Some(env.answer)))
            && (q.refund == Some(RefundInitiated) ==> p.refund == Some(RefundInitiated))
            && (q.refund == Some(RefundInitiated) && q.called.None? ==> env.fault == AtRefund)
  {
    hide AgainSucceeds, CallSucceeds;
  }

  lemma CalledGoesOn(w: World, b: nat, envs: seq<DriveEnv>, n: nat, p: Progress)
    requires b < |w.bookings| && Unfinished(p.refund) && p.retries < MAX_RETRIES && n < |envs| && CalledIn(envs, n, p)
    ensures CalledIn(envs, n + 1, DriveProgress(w, b, p, envs[n]))
  {
    hide DriveProgress;
    DriveCalls(w, b, p, envs[n]);
    if p.called.None? && p.refund == Some(RefundInitiated) && envs[n].fault != AtRefund {
      assert CallsFirst(envs, n);
    }
  }

  lemma {:induction false} CalledByFirst(w: World, b: nat, envs: seq<DriveEnv>, n: nat)
    requires b < |w.bookings| && Unfinished(w.bookings[b].refund) && n <= |envs|
    ensures CalledIn(envs, n, Plan(w, b, envs[..n]))
  {
    hide DriveProgress, CallsFirst;
    if n > 0 {
      CalledByFirst(w, b, envs, n - 1);
      assert envs[..n][..n - 1] == envs[..n - 1];
      var p := Plan(w, b, envs[..n - 1]);
      if Unfinished(p.refund) && p.retries < MAX_RETRIES {
        CalledGoesOn(w, b, envs, n - 1, p);
      }
    }
  }

  lemma PlanAnswered(w: World, b: nat, envs: seq<DriveEnv>, a: Payments.Answer)
    requires b < |w.bookings| && Unfinished(w.bookings[b].refund) && IsAnswer(envs, a)
    ensures Answered(Plan(w, b, envs), a)
  {
    hide Plan;
    CalledByFirst(w, b, envs, |envs|);
    assert envs[..|envs|] == envs;
  }

  /** Resumability over any schedule of troubles, decided by what can be looked up before the first tick: the
      plan says whether the refund is settled; a settled one leaves in every database what the uninterrupted
      run leaves, up to the retry counter, if and only if it has FAILED where its call does not succeed, or
      is COMPLETED with its outbox row and all its seats released. */
  lemma {:induction false} RecoverIsFinalIff(w: World, b: nat, envs: seq<DriveEnv>, a: Payments.Answer)
    requires b < |w.bookings| && Unfinished(w.bookings[b].refund) && IsAnswer(envs, a)
    ensures var w' := Recover(w, b, envs);
            var p := Plan(w, b, envs);
            && (Settled(w', b) <==> !Unfinished(p.refund))
            && (Settled(w', b) ==>
                 (Forget(w', b) == Final(w, b, a) <==>
                  if p.refund == Some(Failed) then !CallSucceeds(w, b, a)
                  else p.logged && SeatsAt(w, b, p.freed) == SeatsAt(w, b, SeatsDue(w, b))))
  {
    hide Plan, Recover, WorldAt, SeatsAt, CallSucceeds, Final, Forget;
    RecoverReaches(w, b, envs);
    PlanAnswered(w, b, envs, a);
    var p := Plan(w, b, envs);
    RowKept(w, b, p);
    if !Unfinished(p.refund) {
      WellEndsIff(w, b, p, a);
    }
  }

  // ----- the same in closed form

  function Stage(r: Option<RefundState>): nat {
    match r
    case Some(RefundInitiated) => 0
    case Some(PaymentRefunded) => 1
    case Some(SeatsReleased) => 2
    case _ => 3
  }

  /** The stage whose step is struck. */
  function Strike(env: DriveEnv): nat {
    match env.fault
    case AtRefund => 0
    case SavingReply => 0
    case AtSeatRelease => 1
    case SavingReleased => 1
    case AtTicketCancel => 2
    case AtCommit => 2
    case NoFault => 3
  }

  /** The stage that a drive struck there leaves. */
  function Stop(env: DriveEnv): nat {
    match env.fault
    case SavingReply => if env.recorded then 1 else 0
    case SavingReleased => if env.recorded then 2 else 1
    case AtCommit => if env.recorded then 3 else 2
    case _ => Strike(env)
  }

  /** A drive that starts at this stage does not settle the refund. */
  predicate Interrupted(stage: nat, env: DriveEnv) {
    stage <= Strike(env) && Stop(env) < 3
  }

  /** A drive that starts at this stage calls the seat release. */
  predicate CallsRelease(stage: nat, env: DriveEnv) {
    && stage <= 1 && env.fault != AtSeatRelease
    && (stage == 0 ==> env.fault != AtRefund && env.fault != SavingReply)
  }

  function StageAt(first: nat, envs: seq<DriveEnv>, i: nat): nat
    requires i <= |envs|
  {
    if i == 0 then first else Stop(envs[i - 1])
  }

  /** The first n drives are all interrupted. */
  predicate Waits(first: nat, envs: seq<DriveEnv>, n: nat)
    requires n <= |envs|
  {
    forall i: nat :: i < n ==> Interrupted(StageAt(first, envs, i), envs[i])
  }

  /** How many of the first n drives were counted. */
  function CountedIn(envs: seq<DriveEnv>, n: nat): nat
    requires n <= |envs|
  {
    if n == 0 then 0 else CountedIn(envs, n - 1) + if envs[n - 1].recorded then 1 else 0
  }

  predicate InBudget(retries: nat, envs: seq<DriveEnv>, n: nat)
    requires n <= |envs|
  {
    retries + CountedIn(envs, n) < 5
  }

  /** Drive m is the first that is not interrupted, and the budget reaches as far. */
  predicate SettlesAt(first: nat, retries: nat, envs: seq<DriveEnv>, m: nat)
    requires m < |envs|
  {
    Waits(first, envs, m) && InBudget(retries, envs, m) && !Interrupted(StageAt(first, envs, m), envs[m])
  }

  /** How far the releases that were called in the first n drives got, taken together. */
  function FreedIn(first: nat, envs: seq<DriveEnv>, n: nat): Reach
    requires n <= |envs|
  {
    if n == 0 then RolledBack else
      var before := FreedIn(first, envs, n - 1);
      if CallsRelease(StageAt(first, envs, n - 1), envs[n - 1]) then Further(before, envs[n - 1].release) else before
  }

  /** The first drive that gets to the refund call has it succeed, and its outcome is saved, by the step or
      by the catch. */
  ghost predicate Pays(w: World, b: nat, envs: seq<DriveEnv>)
    requires b < |w.bookings|
  {
    forall c: nat :: CallsFirst(envs, c) ==> CallSucceeds(w, b, envs[c].answer) && !Unheard(envs[c])
  }

  lemma DriveFrom(w: World, b: nat, p: Progress, env: DriveEnv)
    requires b < |w.bookings| && Unfinished(p.refund) && !p.logged
    requires p.refund == Some(RefundInitiated) && env.fault != AtRefund ==>
             p.called.None? && CallSucceeds(w, b, env.answer) && (env.fault == SavingReply ==> env.recorded)
    ensures var q := DriveProgress(w, b, p, env);
            var stage := Stage(p.refund);
            && (Interrupted(stage, env) ==>
                 && Unfinished(q.refund) && Stage(q.refund) == Stop(env) && !q.logged
                 && q.retries == p.retries + (if env.recorded then 1 else 0)
                 && (q.refund == Some(RefundInitiated) ==> q.called == p.called))
            && (!Interrupted(stage, env) ==>
                 q.refund == Some(Completed) && (q.logged <==> !(env.fault == AtCommit && env.recorded)))
            && q.freed == (if CallsRelease(stage, env) then Further(p.freed, env.release) else p.freed)
  {
    hide CallSucceeds, AgainSucceeds;
  }

  /** After n interrupted drives. */
  predicate Waiting(w: World, b: nat, envs: seq<DriveEnv>, p: Progress)
    requires b < |w.bookings|
  {
    var first := Stage(w.bookings[b].refund);
    && Unfinished(p.refund) && Stage(p.refund) == StageAt(first, envs, |envs|) && !p.logged
    && p.retries == w.bookings[b].retries + CountedIn(envs, |envs|)
    && p.freed == FreedIn(first, envs, |envs|)
    && (p.refund == Some(RefundInitiated) ==>
         p.called.None? && forall j: nat :: j < |envs| ==> envs[j].fault == AtRefund)
  }

  /** Drive m has settled it. */
  predicate SettledBy(w: World, b: nat, envs: seq<DriveEnv>, m: nat, p: Progress)
    requires b < |w.bookings| && m < |envs|
  {
    var first := Stage(w.bookings[b].refund);
    && SettlesAt(first, w.bookings[b].retries, envs, m)
    && p.refund == Some(Completed) && p.freed == FreedIn(first, envs, m + 1)
    && (p.logged <==> !(envs[m].fault == AtCommit && envs[m].recorded))
  }

  /** The budget ran out before. */
  predicate GivenUp(w: World, b: nat, envs: seq<DriveEnv>, p: Progress)
    requires b < |w.bookings|
  {
    && Unfinished(p.refund) && p.retries >= 5
    && exists k: nat :: k < |envs| && Waits(Stage(w.bookings[b].refund), envs, k)
                     && !InBudget(w.bookings[b].retries, envs, k)
  }

  lemma {:induction false} PrefixAgrees(first: nat, envs: seq<DriveEnv>, n: nat, i: nat)
    requires i <= n <= |envs|
    ensures StageAt(first, envs[..n], i) == StageAt(first, envs, i)
    ensures CountedIn(envs[..n], i) == CountedIn(envs, i) && FreedIn(first, envs[..n], i) == FreedIn(first, envs, i)
    decreases i
  {
    if i > 0 {
      PrefixAgrees(first, envs, n, i - 1);
    }
  }

  lemma WaitsPrefix(first: nat, envs: seq<DriveEnv>, n: nat, i: nat)
    requires i <= n <= |envs|
    ensures Waits(first, envs[..n], i) <==> Waits(first, envs, i)
  {
    hide Interrupted, StageAt;
    forall j: nat | j < i ensures StageAt(first, envs[..n], j) == StageAt(first, envs, j) && envs[..n][j] == envs[j] {
      PrefixAgrees(first, envs, n, j);
    }
  }

  /** Which of the three is the case after a schedule, in which one. */
  ghost predicate Outcome(w: World, b: nat, envs: seq<DriveEnv>, p: Progress)
    requires b < |w.bookings|
  {
    || (Waits(Stage(w.bookings[b].refund), envs, |envs|) && Waiting(w, b, envs, p))
    || (exists m: nat :: m < |envs| && SettledBy(w, b, envs, m, p))
    || GivenUp(w, b, envs, p)
  }

  lemma WaitingGoesOn(w: World, b: nat, envs: seq<DriveEnv>, p: Progress)
    requires b < |w.bookings| && envs != [] && (w.bookings[b].refund == Some(RefundInitiated) ==> Pays(w, b, envs))
    requires var n := |envs| - 1; Waits(Stage(w.bookings[b].refund), envs, n) && Waiting(w, b, envs[..n], p)
    requires p.refund == Some(RefundInitiated) ==> w.bookings[b].refund == Some(RefundInitiated)
    requires p.retries < MAX_RETRIES
    ensures Outcome(w, b, envs, DriveProgress(w, b, p, envs[|envs| - 1]))
  {
    hide CallSucceeds, DriveProgress, Interrupted, CallsRelease, Stop, Further;
    var n, first := |envs| - 1, Stage(w.bookings[b].refund);
    PrefixAgrees(first, envs, n, n);
    if p.refund == Some(RefundInitiated) {
      assert forall j: nat :: j < n ==> envs[j] == envs[..n][j];
    }
    if p.refund == Some(RefundInitiated) && envs[n].fault != AtRefund {
      assert CallsFirst(envs, n);
    }
    DriveFrom(w, b, p, envs[n]);
    var q := DriveProgress(w, b, p, envs[n]);
    assert InBudget(w.bookings[b].retries, envs, n);
    if Interrupted(StageAt(first, envs, n), envs[n]) {
      StaysInitiated(w, b, envs, p, q);
    } else {
      assert SettledBy(w, b, envs, n, q);
    }
  }

  lemma StaysInitiated(w: World, b: nat, envs: seq<DriveEnv>, p: Progress, q: Progress)
    requires b < |w.bookings| && envs != [] && (w.bookings[b].refund == Some(RefundInitiated) ==> Pays(w, b, envs))
    requires var n := |envs| - 1;
             Waiting(w, b, envs[..n], p) && Interrupted(Stage(p.refund), envs[n])
             && (Stage(q.refund) == Stop(envs[n]))
    requires Unfinished(q.refund) && (q.refund == Some(RefundInitiated) ==> q.called == p.called)
    requires p.refund == Some(RefundInitiated) ==> w.bookings[b].refund == Some(RefundInitiated)
    ensures q.refund == Some(RefundInitiated) ==>
              q.called.None? && forall j: nat :: j < |envs| ==> envs[j].fault == AtRefund
  {
    hide CallSucceeds, FreedIn, CountedIn;
    var n := |envs| - 1;
    assert forall j: nat :: j < n ==> envs[j] == envs[..n][j];
    assert p.refund == Some(RefundInitiated) && envs[n].fault != AtRefund ==> CallsFirst(envs, n);
    if q.refund == Some(RefundInitiated) {
      assert Stage(p.refund) == 0 && p.refund == Some(RefundInitiated);
    }
  }

  lemma FirstDrive(w: World, b: nat)
    requires b < |w.bookings| && Unfinished(w.bookings[b].refund)
    ensures Outcome(w, b, [], Start(w, b))
  {
  }

  lemma SettledStays(w: World, b: nat, envs: seq<DriveEnv>, n: nat, m: nat, p: Progress)
    requires b < |w.bookings| && m < n <= |envs| && SettledBy(w, b, envs[..n], m, p)
    ensures SettledBy(w, b, envs, m, p)
  {
    hide Interrupted, FreedIn, CountedIn, StageAt;
    var first := Stage(w.bookings[b].refund);
    WaitsPrefix(first, envs, n, m);
    PrefixAgrees(first, envs, n, m);
    PrefixAgrees(first, envs, n, m + 1);
  }

  lemma GivenUpStays(w: World, b: nat, envs: seq<DriveEnv>, n: nat, p: Progress)
    requires b < |w.bookings| && n <= |envs| && GivenUp(w, b, envs[..n], p)
    ensures GivenUp(w, b, envs, p)
  {
    hide Interrupted, FreedIn, CountedIn, StageAt, Waits;
    var first := Stage(w.bookings[b].refund);
    var k: nat :| k < n && Waits(first, envs[..n], k) && !InBudget(w.bookings[b].retries, envs[..n], k);
    WaitsPrefix(first, envs, n, k);
    PrefixAgrees(first, envs, n, k);
  }

  lemma PaysPrefix(w: World, b: nat, envs: seq<DriveEnv>, n: nat)
    requires b < |w.bookings| && n <= |envs| && Pays(w, b, envs)
    ensures Pays(w, b, envs[..n])
  {
    hide CallSucceeds;
    forall c: nat | CallsFirst(envs[..n], c) ensures CallSucceeds(w, b, envs[c].answer) && !Unheard(envs[c]) {
      assert forall j: nat :: j < c ==> envs[j] == envs[..n][j];
      assert CallsFirst(envs, c);
    }
  }

  lemma {:induction false} PlanOutcome(w: World, b: nat, envs: seq<DriveEnv>)
    requires b < |w.bookings| && Unfinished(w.bookings[b].refund)
    requires w.bookings[b].refund == Some(RefundInitiated) ==> Pays(w, b, envs)
    ensures Outcome(w, b, envs, Plan(w, b, envs))
  {
    hide Outcome, DriveProgress, Start, Waiting, Pays, SettledBy, GivenUp, Waits, Well;
    if envs == [] {
      FirstDrive(w, b);
    } else {
      var n := |envs| - 1;
      if w.bookings[b].refund == Some(RefundInitiated) {
        PaysPrefix(w, b, envs, n);
      }
      PlanOutcome(w, b, envs[..n]);
      RecoverReaches(w, b, envs[..n]);
      NextOutcome(w, b, envs, Plan(w, b, envs[..n]));
    }
  }

  lemma NextOutcome(w: World, b: nat, envs: seq<DriveEnv>, p: Progress)
    requires b < |w.bookings| && envs != [] && Well(w, b, p)
    requires w.bookings[b].refund == Some(RefundInitiated) ==> Pays(w, b, envs)
    requires Outcome(w, b, envs[..|envs| - 1], p)
    ensures Outcome(w, b, envs, if Unfinished(p.refund) && p.retries < MAX_RETRIES then
                                  DriveProgress(w, b, p, envs[|envs| - 1]) else p)
  {
    hide DriveProgress, Pays, CallSucceeds, Interrupted, FreedIn, CountedIn, StageAt, Waits;
    var n, first := |envs| - 1, Stage(w.bookings[b].refund);
    if Waits(first, envs[..n], n) && Waiting(w, b, envs[..n], p) {
      WaitsPrefix(first, envs, n, n);
      PrefixAgrees(first, envs, n, n);
      if p.retries < MAX_RETRIES {
        WaitingGoesOn(w, b, envs, p);
      } else {
        assert !InBudget(w.bookings[b].retries, envs, n);
      }
    } else if m: nat :| m < n && SettledBy(w, b, envs[..n], m, p) {
      SettledStays(w, b, envs, n, m, p);
    } else {
      GivenUpStays(w, b, envs, n, p);
    }
  }

  // ----- which drive settles the refund

  lemma {:induction false} CountedGrows(envs: seq<DriveEnv>, i: nat, n: nat)
    requires i <= n <= |envs|
    ensures CountedIn(envs, i) <= CountedIn(envs, n)
    decreases n
  {
    if i < n {
      CountedGrows(envs, i, n - 1);
    }
  }

  lemma OneDriveSettles(first: nat, retries: nat, envs: seq<DriveEnv>, m: nat, m': nat)
    requires m < |envs| && m' < |envs| && SettlesAt(first, retries, envs, m) && SettlesAt(first, retries, envs, m')
    ensures m == m'
  {
    hide Interrupted, StageAt, CountedIn;
  }

  /** A refund whose call succeeds is settled exactly by the first drive that is not interrupted, if the
      retry budget lasts until then; it leaves what the uninterrupted run leaves if and only if that drive
      does not lose the outbox row in a rolled back transaction that the catch then covers up, and the seat
      releases that were called until then together free what there is to free. */
  lemma {:induction false} PaidRefundSettlesIff(w: World, b: nat, envs: seq<DriveEnv>, a: Payments.Answer)
    requires b < |w.bookings| && Unfinished(w.bookings[b].refund) && IsAnswer(envs, a)
    requires w.bookings[b].refund == Some(RefundInitiated) ==> Pays(w, b, envs)
    ensures var w', first := Recover(w, b, envs), Stage(w.bookings[b].refund);
            && (Settled(w', b) <==> exists m: nat :: m < |envs| && SettlesAt(first, w.bookings[b].retries, envs, m))
            && forall m: nat :: m < |envs| && SettlesAt(first, w.bookings[b].retries, envs, m) ==>
                 (Forget(w', b) == Final(w, b, a) <==>
                  && !(envs[m].fault == AtCommit && envs[m].recorded)
                  && SeatsAt(w, b, FreedIn(first, envs, m + 1)) == SeatsAt(w, b, SeatsDue(w, b)))
  {
    hide Plan, Recover, SeatsAt, CallSucceeds, Final, Forget, FreedIn, Pays, SettlesAt, SettledBy, Outcome;
    var first, r, p := Stage(w.bookings[b].refund), w.bookings[b].retries, Plan(w, b, envs);
    PlanOutcome(w, b, envs);
    RecoverIsFinalIff(w, b, envs, a);
    if Unfinished(p.refund) {
      NothingSettles(w, b, envs, p);
    } else {
      var n := SettlingDrive(w, b, envs, p);
      forall m: nat | m < |envs| && SettlesAt(first, r, envs, m) ensures m == n {
        OneDriveSettles(first, r, envs, m, n);
      }
    }
  }

  lemma SettlingDrive(w: World, b: nat, envs: seq<DriveEnv>, p: Progress) returns (m: nat)
    requires b < |w.bookings| && Outcome(w, b, envs, p) && !Unfinished(p.refund)
    ensures m < |envs| && SettlesAt(Stage(w.bookings[b].refund), w.bookings[b].retries, envs, m)
    ensures p.refund == Some(Completed) && p.freed == FreedIn(Stage(w.bookings[b].refund), envs, m + 1)
    ensures p.logged <==> !(envs[m].fault == AtCommit && envs[m].recorded)
  {
    hide SettlesAt, FreedIn, Waits, InBudget;
    m :| m < |envs| && SettledBy(w, b, envs, m, p);
  }

  lemma NothingSettles(w: World, b: nat, envs: seq<DriveEnv>, p: Progress)
    requires b < |w.bookings| && Outcome(w, b, envs, p) && Unfinished(p.refund)
    ensures forall m: nat :: m < |envs| ==> !SettlesAt(Stage(w.bookings[b].refund), w.bookings[b].retries, envs, m)
  {
    hide Interrupted, StageAt, FreedIn;
    var first, r := Stage(w.bookings[b].refund), w.bookings[b].retries;
    if GivenUp(w, b, envs, p) {
      var k: nat :| k < |envs| && Waits(first, envs, k) && !InBudget(r, envs, k);
      forall m: nat | m < |envs| ensures !SettlesAt(first, r, envs, m) {
        if k <= m {
          CountedGrows(envs, k, m);
        }
      }
    }
  }

  // ----- refunds whose call does not succeed, or succeeds without being saved

  /** The call of drive c does not succeed, or nobody hears that it did, and a repetition would fail. */
  predicate FailsAt(w: World, b: nat, envs: seq<DriveEnv>, c: nat)
    requires b < |w.bookings|
  {
    && CallsFirst(envs, c)
    && (!CallSucceeds(w, b, envs[c].answer) || (Unheard(envs[c]) && !AgainSucceeds(w, b, envs[c].answer)))
  }

  /** Before drive n of a refund that fails. */
  predicate Failing(w: World, b: nat, envs: seq<DriveEnv>, n: nat, c: nat, p: Progress)
    requires b < |w.bookings| && n <= |envs| && c < |envs|
  {
    && (p.refund == Some(RefundInitiated) || (p.refund == Some(Failed) && c < n))
    && (p.called.None? || (p.called == Some(envs[c].answer) && c < n))
    && (p.called.None? && n > c ==> p.retries >= MAX_RETRIES)
  }

  lemma FailingGoesOn(w: World, b: nat, envs: seq<DriveEnv>, n: nat, c: nat, p: Progress)
    requires b < |w.bookings| && n < |envs| && FailsAt(w, b, envs, c) && Failing(w, b, envs, n, c, p)
    requires p.refund == Some(RefundInitiated) && p.retries < MAX_RETRIES
    ensures Failing(w, b, envs, n + 1, c, DriveProgress(w, b, p, envs[n]))
    ensures p.called.Some? ==> !AgainSucceeds(w, b, p.called.value)
  {
    hide CallSucceeds, AgainSucceeds, FromRefunded;
    AgainOnlyAfterSuccess(w, b, envs[c].answer);
  }

  lemma {:induction false} StaysFailing(w: World, b: nat, envs: seq<DriveEnv>, n: nat, c: nat)
    requires b < |w.bookings| && w.bookings[b].refund == Some(RefundInitiated)
    requires n <= |envs| && FailsAt(w, b, envs, c)
    ensures Failing(w, b, envs, n, c, Plan(w, b, envs[..n]))
  {
    hide FailsAt, DriveProgress;
    if n > 0 {
      StaysFailing(w, b, envs, n - 1, c);
      assert envs[..n][..n - 1] == envs[..n - 1];
      var p := Plan(w, b, envs[..n - 1]);
      if p.refund == Some(RefundInitiated) && p.retries < MAX_RETRIES {
        FailingGoesOn(w, b, envs, n - 1, c, p);
      }
    }
  }

  /** Such a refund is never completed.  When it is settled it has FAILED, and that is where the uninterrupted
      run leads if and only if the refund call did not succeed: otherwise the money is back. */
  lemma {:induction false} UnpaidRefundFails(w: World, b: nat, envs: seq<DriveEnv>, c: nat)
    requires b < |w.bookings| && w.bookings[b].refund == Some(RefundInitiated) && FailsAt(w, b, envs, c)
    ensures var w' := Recover(w, b, envs);
            && (w'.bookings[b].refund == Some(RefundInitiated) || w'.bookings[b].refund == Some(Failed))
            && (Settled(w', b) ==>
                 (Forget(w', b) == Final(w, b, envs[c].answer) <==> !CallSucceeds(w, b, envs[c].answer)))
  {
    hide Plan, Recover, WorldAt, SeatsAt, CallSucceeds, AgainSucceeds, Final, Forget;
    StaysFailing(w, b, envs, |envs|, c);
    assert envs[..|envs|] == envs;
    RecoverReaches(w, b, envs);
    RowKept(w, b, Plan(w, b, envs));
    RecoverIsFinalIff(w, b, envs, envs[c].answer);
  }

  // ----- single drives

  lemma UnfinishedIsNotFinal(w: World, b: nat, p: Progress, a: Payments.Answer)
    requires b < |w.bookings| && Unfinished(w.bookings[b].refund) && Unfinished(p.refund)
    ensures Forget(WorldAt(w, b, p), b) != Final(w, b, a)
  {
    hide Smoothly, SeatsAt, PaidBack, CallSucceeds, Final, Forget;
    FinalIs(w, b, a);
    SmoothlyIs(w, b, a);
    SameEndIff(w, b, p, Smoothly(w, b, a));
  }

  lemma DriveIsFinalIff(w: World, b: nat, env: DriveEnv)
    requires b < |w.bookings| && Unfinished(w.bookings[b].refund)
    ensures var p := DriveProgress(w, b, Start(w, b), env);
            Forget(Drive(w, b, env), b) == Final(w, b, env.answer) <==>
            || (p.refund == Some(Failed) && !CallSucceeds(w, b, env.answer))
            || (p.refund == Some(Completed) && p.logged && SeatsAt(w, b, p.freed) == SeatsAt(w, b, SeatsDue(w, b)))
  {
    hide WorldAt, SeatsAt, CallSucceeds, Final, Forget, Drive, Well;
    var p := DriveProgress(w, b, Start(w, b), env);
    StartIsHere(w, b);
    StartIsWell(w, b);
    DriveReaches(w, b, Start(w, b), env);
    DriveKeepsWell(w, b, Start(w, b), env);
    if Unfinished(p.refund) {
      UnfinishedIsNotFinal(w, b, p, env.answer);
    } else {
      StartEnds(w, b, env);
      WellEndsIff(w, b, p, env.answer);
    }
  }

  lemma StartEnds(w: World, b: nat, env: DriveEnv)
    requires b < |w.bookings| && Unfinished(w.bookings[b].refund)
    ensures var p := DriveProgress(w, b, Start(w, b), env);
            && Answered(p, env.answer)
            && (Unfinished(p.refund) || p.refund == Some(Completed) || p.refund == Some(Failed))
  {
    hide CallSucceeds, AgainSucceeds;
  }

  /** A drive whose final transaction is rolled back leaves what the uninterrupted one leaves if and only if
      it never gets there: the refund is still initiated, and its call does not succeed. */
  lemma {:induction false} CommitFaultIsFinalIff(w: World, b: nat, env: DriveEnv)
    requires b < |w.bookings| && Unfinished(w.bookings[b].refund) && env.fault == AtCommit
    ensures Forget(Drive(w, b, env), b) == Final(w, b, env.answer) <==>
            w.bookings[b].refund == Some(RefundInitiated) && !CallSucceeds(w, b, env.answer)
  {
    hide SeatsAt, CallSucceeds, Final, Forget, Drive;
    DriveIsFinalIff(w, b, env);
  }

  /** A seat release that is refused, or stops short of the cache, leaves what the uninterrupted drive leaves
      if and only if it is not called, or does all there is to do. */
  lemma {:induction false} RefusedReleaseIsFinalIff(w: World, b: nat, env: DriveEnv)
    requires b < |w.bookings| && Unfinished(w.bookings[b].refund) && env.fault == NoFault
    ensures Forget(Drive(w, b, env), b) == Final(w, b, env.answer) <==>
            || w.bookings[b].refund == Some(SeatsReleased)
            || (w.bookings[b].refund == Some(RefundInitiated) && !CallSucceeds(w, b, env.answer))
            || SeatsAt(w, b, env.release) == SeatsAt(w, b, Finished)
  {
    hide SeatsAt, CallSucceeds, Final, Forget, Drive;
    DriveIsFinalIff(w, b, env);
    SameReach(w, b, env.release);
  }

  lemma SameReach(w: World, b: nat, r: Reach)
    requires b < |w.bookings|
    ensures SeatsAt(w, b, Further(RolledBack, r)) == SeatsAt(w, b, r)
  {
    hide ReleaseSoldSeats;
  }

  /** A drive of an unfinished refund settles it or spends one unit of the retry budget, unless the save in
      the catch fails. */
  lemma DriveSettlesOrCounts(w: World, b: nat, env: DriveEnv)
    requires b < |w.bookings| && Unfinished(w.bookings[b].refund)
    ensures var w' := Drive(w, b, env);
            && b < |w'.bookings|
            && (|| Settled(w', b)
                || (&& Unfinished(w'.bookings[b].refund) && env.fault != NoFault
                    && w'.bookings[b].retries == w.bookings[b].retries + if env.recorded then 1 else 0))
  {
    hide WorldAt, Drive, CallSucceeds, AgainSucceeds;
    StartIsHere(w, b);
    DriveReaches(w, b, Start(w, b), env);
    RowKept(w, b, DriveProgress(w, b, Start(w, b), env));
  }

  // ----- schedules that lose nothing

  /** It throws before a call takes effect, or where it is made good: the outcome of the refund call is saved
      by the step or the catch, the release is not refused, and a rolled back transaction is not covered up. */
  predicate Clean(env: DriveEnv) {
    !Unheard(env) && env.release == Finished && (env.fault == AtCommit ==> !env.recorded)
  }

  predicate AllClean(envs: seq<DriveEnv>) {
    forall i :: 0 <= i < |envs| ==> Clean(envs[i])
  }

  predicate AllCounted(envs: seq<DriveEnv>) {
    forall i :: 0 <= i < |envs| ==> envs[i].recorded
  }

  /** What a clean schedule keeps. */
  predicate NothingLost(w: World, b: nat, p: Progress)
    requires b < |w.bookings|
  {
    && (p.refund == Some(RefundInitiated) ==> p.called.None?)
    && (p.refund == Some(Failed) ==> p.called.Some? && !CallSucceeds(w, b, p.called.value))
    && (p.refund == Some(SeatsReleased) || p.refund == Some(Completed) ==> p.freed == SeatsDue(w, b))
    && (p.refund == Some(Completed) ==> p.logged)
  }

  lemma CleanDrive(w: World, b: nat, p: Progress, env: DriveEnv)
    requires b < |w.bookings| && Well(w, b, p) && Unfinished(p.refund) && NothingLost(w, b, p) && Clean(env)
    ensures NothingLost(w, b, DriveProgress(w, b, p, env))
  {
    hide CallSucceeds, AgainSucceeds;
  }

  lemma StartLosesNothing(w: World, b: nat)
    requires b < |w.bookings| && Unfinished(w.bookings[b].refund)
    ensures NothingLost(w, b, Start(w, b))
  {
    hide CallSucceeds;
  }

  lemma {:induction false} CleanPlan(w: World, b: nat, envs: seq<DriveEnv>)
    requires b < |w.bookings| && Unfinished(w.bookings[b].refund) && AllClean(envs)
    ensures NothingLost(w, b, Plan(w, b, envs))
  {
    hide DriveProgress, Well, Clean, NothingLost, Start;
    if envs == [] {
      StartLosesNothing(w, b);
    } else {
      var n := |envs| - 1;
      CleanPlan(w, b, envs[..n]);
      RecoverReaches(w, b, envs[..n]);
      var p := Plan(w, b, envs[..n]);
      if Unfinished(p.refund) && p.retries < MAX_RETRIES {
        CleanDrive(w, b, p, envs[n]);
      }
    }
  }

  lemma DriveCounts(w: World, b: nat, p: Progress, env: DriveEnv)
    requires b < |w.bookings| && Unfinished(p.refund) && Unfinished(DriveProgress(w, b, p, env).refund)
    ensures env.fault != NoFault
    ensures DriveProgress(w, b, p, env).retries == p.retries + if env.recorded then 1 else 0
  {
    hide CallSucceeds, AgainSucceeds;
  }

  predicate AllStruck(envs: seq<DriveEnv>) {
    forall i :: 0 <= i < |envs| ==> envs[i].fault != NoFault
  }

  /** A refund that is not settled, although the catch saved every time, has spent its budget, or each drive
      so far was struck. */
  lemma {:induction false} CountedPlan(w: World, b: nat, envs: seq<DriveEnv>)
    requires b < |w.bookings| && Unfinished(w.bookings[b].refund) && AllCounted(envs)
    ensures var p := Plan(w, b, envs);
            Unfinished(p.refund) && p.retries < MAX_RETRIES ==>
              p.retries == w.bookings[b].retries + |envs| && AllStruck(envs)
  {
    hide DriveProgress;
    if envs != [] {
      var n := |envs| - 1;
      CountedPlan(w, b, envs[..n]);
      var p, q := Plan(w, b, envs[..n]), Plan(w, b, envs);
      if Unfinished(p.refund) && p.retries < MAX_RETRIES && Unfinished(q.refund) {
        DriveCounts(w, b, p, envs[n]);
        assert envs == envs[..n] + [envs[n]];
      }
    }
  }

  /** Whatever strikes in a schedule of clean drives, a settled refund leaves what the uninterrupted drive
      leaves; when the catch can save, it is settled unless the budget of five retries is spent or too few
      ticks have passed. */
  lemma {:induction false} RefundIsResumable(w: World, b: nat, envs: seq<DriveEnv>, a: Payments.Answer)
    requires b < |w.bookings| && Unfinished(w.bookings[b].refund) && AllClean(envs) && IsAnswer(envs, a)
    ensures var w' := Recover(w, b, envs);
            && (Settled(w', b) ==> Forget(w', b) == Forget(Drive(w, b, Smooth(a)), b))
            && (!Settled(w', b) && AllCounted(envs)
                && (|envs| >= 5 || !AllStruck(envs)) ==>
                  w'.bookings[b].retries >= 5)
  {
    hide Drive, WorldAt, CallSucceeds, SeatsAt, Forget, Recover, Plan, AllClean, Well;
    RecoverIsFinalIff(w, b, envs, a);
    RecoverReaches(w, b, envs);
    PlanAnswered(w, b, envs, a);
    RowKept(w, b, Plan(w, b, envs));
    CleanPlan(w, b, envs);
    if AllCounted(envs) {
      CountedPlan(w, b, envs);
    }
  }

  // ----- what the uninterrupted drive leaves

  /** The booking is REFUNDED, its seats are back on sale, no ticket of it is ACTIVE and one
      `booking.refunded` row waits. */
  predicate Refunded(w: World, d: World, b: nat)
    requires b < |w.bookings| && b < |d.bookings|
  {
    var row := w.bookings[b];
    && d.bookings[b] == row.(status := RefundedBooking, refund := Some(Completed))
    && d.outbox == w.outbox + [OutboxRow(BookingRefunded, b)]
    && (forall s :: s in SeatsOf(row) && SeatKey(row.event, s) in w.seats.rows ==>
         SeatKey(row.event, s) in d.seats.rows && d.seats.rows[SeatKey(row.event, s)].status == Available)
    && |d.tickets| == |w.tickets|
    && (forall t :: 0 <= t < |d.tickets| && d.tickets[t].booking == b ==> d.tickets[t].status != Tickets.Active)
    && (forall t :: 0 <= t < |d.tickets| && w.tickets[t].booking != b ==> d.tickets[t] == w.tickets[t])
  }

  /** Only the booking's own row has changed, and it is FAILED. */
  predicate RefundFailed(w: World, d: World, b: nat)
    requires b < |w.bookings| && b < |d.bookings|
  {
    && d.bookings[b] == w.bookings[b].(refund := Some(Failed), retries := w.bookings[b].retries + 1)
    && d.outbox == w.outbox && d.seats == w.seats && d.tickets == w.tickets
  }

  /** The refund call decides. */
  lemma {:induction false} UninterruptedRun(w: World, b: nat, a: Payments.Answer)
    requires b < |w.bookings| && w.bookings[b].refund == Some(RefundInitiated)
    ensures var d := Drive(w, b, Smooth(a));
            && d.pay == Payments.GiveBack(w.pay, b, KeyOf(w, b), a).db
            && (CallSucceeds(w, b, a) ==> Refunded(w, d, b))
            && (!CallSucceeds(w, b, a) ==> RefundFailed(w, d, b))
  {
    hide Payments.GiveBack, CallSucceeds, AgainSucceeds, Drive, MachineStep;
    StartIsHere(w, b);
    DriveReaches(w, b, Start(w, b), Smooth(a));
    SmoothlyIs(w, b, a);
  }
}
