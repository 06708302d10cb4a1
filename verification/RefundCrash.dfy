/** One booking's refund in single steps: the state machine that drives it, and the payment-service
    executions of its refund calls.  Any step may throw, any process may crash between two steps, and
    a reply may be lost while the payment service works on. */
module RefundCrash {
  import opened Basics

  /** Refund keys are only compared here. */
  type Key = int

  datatype BookingStatus = Confirmed | Refunded

  datatype RefundState = RefundInitiated | PaymentRefunded | SeatsReleased | Completed | Failed

  /** The refund columns of the booking row. */
  datatype Row = Row(status: BookingStatus, refund: Option<RefundState>, key: Option<Key>, retries: nat)

  datatype RefundStatus = Pending | Processed | Rejected

  datatype RefundRow = RefundRow(key: Key, status: RefundStatus)

  /** processRefundStateMachine and its callers; `mem` is the in-memory booking. */
  datatype Driver =
    | Idle
    | SavingFirst(mem: Row)                      // cancelBooking: REFUND_INITIATED is about to be saved
    | Top(mem: Row, step: nat)                   // head of the loop
    | Awaiting(mem: Row, step: nat, call: nat)   // refundPayment is outstanding
    | Saving(mem: Row, step: nat)                // the state has advanced in memory, its save is next
    | SavingFailed(mem: Row)                     // the refund was refused, FAILED is about to be saved
    | Committing(mem: Row)                       // tickets cancelled, COMPLETED is about to be committed
    | Catching(mem: Row)                         // the outer catch: count the retry and save

  /** refundByBooking, with the success flag its controller makes of the outcome. */
  datatype Server =
    | FindingPayment
    | FindingKey
    | Inserting
    | Refunding(row: nat)
    | SavingProcessed(row: nat)
    | SavingPayment(row: nat)
    | SavingRejected(row: nat)
    | Replying(ok: bool)
    | Done

  datatype Exec = Exec(key: Key, phase: Server)

  /** `gateway` counts refund calls to the gateway, `accepted` those that it accepted, `goodReplies` successful
      refund replies the driver has seen, `seatReplies` returned seat-release calls. */
  datatype State = State(
    row: Row,
    paid: bool,                  // the booking's payment is SUCCEEDED rather than REFUNDED
    refunds: seq<RefundRow>,
    driver: Driver,
    servers: seq<Exec>,
    gateway: nat,
    accepted: nat,
    goodReplies: nat,
    seatReplies: nat,
    exhausted: bool)

  datatype Event =
    | Cancel(key: Key)
    | Recover
    | Drive                      // the driver's next step succeeds
    | DriveThrows(saved: bool)   // it throws; `saved` when the write went through all the same
    | DriverCrash
    | Serve(i: nat, accepted: bool)
    | ServeThrows(i: nat)
    | ServerCrash(i: nat)

  const MAX_STEPS := 5
  const MAX_RETRIES := 5

  predicate Unfinished(r: Option<RefundState>) {
    r == Some(RefundInitiated) || r == Some(PaymentRefunded) || r == Some(SeatsReleased)
  }

  predicate AllDone(servers: seq<Exec>) {
    forall i :: 0 <= i < |servers| ==> servers[i].phase.Done?
  }

  /** One driver at a time.  With `serial`, a refund call is not sent while an earlier one for this
      booking is still being executed. */
  predicate Enabled(s: State, ev: Event, serial: bool) {
    match ev
    case Cancel(_) => s.driver.Idle? && s.row.status == Confirmed
    case Recover => s.driver.Idle? && Unfinished(s.row.refund) && s.row.retries < MAX_RETRIES
    case Drive =>
      && !s.driver.Idle? && !s.driver.Awaiting?
      && (serial && s.driver.Top? && s.driver.mem.refund == Some(RefundInitiated) ==> AllDone(s.servers))
    case DriveThrows(_) => !s.driver.Idle?
    case DriverCrash => true
    case Serve(i, _) => i < |s.servers| && !s.servers[i].phase.Done?
    case ServeThrows(i) => i < |s.servers| && !s.servers[i].phase.Done?
    case ServerCrash(i) => i < |s.servers|
  }

  function LoadForCancel(row: Row, key: Key): Driver {
    if row.refund.None? then SavingFirst(row.(refund := Some(RefundInitiated), key := Some(key))) else Top(row, 0)
  }

  /** The driver's next step, when it succeeds. */
  function DriveStep(s: State): State {
    match s.driver
    case Idle => s
    case SavingFirst(mem) => s.(row := mem, driver := Top(mem, 0))
    case Top(mem, step) =>
      if step == MAX_STEPS then s.(driver := Idle, exhausted := true)
      else (match mem.refund
        case Some(RefundInitiated) =>
          s.(driver := Awaiting(mem, step, |s.servers|),
              servers := s.servers + [Exec(mem.key.GetOr(0), FindingPayment)])
        case Some(PaymentRefunded) =>
          s.(driver := Saving(mem.(refund := Some(SeatsReleased)), step), seatReplies := s.seatReplies + 1)
        case Some(SeatsReleased) => s.(driver := Committing(mem.(status := Refunded, refund := Some(Completed))))
        case Some(Completed) => s.(driver := Idle)
        case _ => s.(driver := Catching(mem)))
    case Awaiting(_, _, _) => s
    case Saving(mem, step) => s.(row := mem, driver := Top(mem, step + 1))
    case SavingFailed(mem) => s.(row := mem, driver := Catching(mem))
    case Committing(mem) => s.(row := mem, driver := Idle)
    case Catching(mem) => s.(row := mem.(retries := mem.retries + 1), driver := Idle)
  }

  /** The driver's next step throws, or the reply it waits for is lost. */
  function DriveThrow(s: State, saved: bool): State {
    match s.driver
    case Idle => s
    case SavingFirst(mem) => s.(row := if saved then mem else s.row, driver := Idle)
    case Top(mem, _) => s.(driver := Catching(mem))
    case Awaiting(mem, _, _) => s.(driver := Catching(mem))
    case Saving(mem, _) => s.(row := if saved then mem else s.row, driver := Catching(mem))
    case SavingFailed(mem) => s.(row := if saved then mem else s.row, driver := Catching(mem))
    case Committing(mem) => s.(driver := Catching(mem))
    case Catching(mem) => s.(row := if saved then mem.(retries := mem.retries + 1) else s.row, driver := Idle)
  }

  function KeyRow(refunds: seq<RefundRow>, key: Key): (r: Option<nat>)
    ensures r.Some? ==> r.value < |refunds| && refunds[r.value].key == key
    ensures r.None? ==> forall i :: 0 <= i < |refunds| ==> refunds[i].key != key
  {
    if refunds == [] then None
    else if refunds[|refunds| - 1].key == key then Some(|refunds| - 1)
    else KeyRow(refunds[..|refunds| - 1], key)
  }

  function SetRefund(s: State, r: nat, st: RefundStatus): State {
    if r < |s.refunds| then s.(refunds := s.refunds[r := s.refunds[r].(status := st)]) else s
  }

  function At(s: State, i: nat, p: Server): State
    requires i < |s.servers|
  {
    s.(servers := s.servers[i := s.servers[i].(phase := p)])
  }

  /** A reply reaches the driver only if it still waits for this call. */
  function Deliver(s: State, i: nat, ok: bool): State {
    if !s.driver.Awaiting? || s.driver.call != i then s
    else if ok then
      s.(driver := Saving(s.driver.mem.(refund := Some(PaymentRefunded)), s.driver.step),
         goodReplies := s.goodReplies + 1)
    else s.(driver := SavingFailed(s.driver.mem.(refund := Some(Failed))))
  }

  function ServeStep(s: State, i: nat, accepted: bool): State
    requires i < |s.servers|
  {
    match s.servers[i].phase
    case FindingPayment => At(s, i, if s.paid then FindingKey else Replying(false))
    case FindingKey =>
      var found := KeyRow(s.refunds, s.servers[i].key);
      At(s, i, if found.Some? then Replying(s.refunds[found.value].status == Processed) else Inserting)
    case Inserting => At(s.(refunds := s.refunds + [RefundRow(s.servers[i].key, Pending)]), i, Refunding(|s.refunds|))
    case Refunding(r) =>
      if accepted then At(s.(gateway := s.gateway + 1, accepted := s.accepted + 1), i, SavingProcessed(r))
      else At(s.(gateway := s.gateway + 1), i, SavingRejected(r))
    case SavingProcessed(r) => At(SetRefund(s, r, Processed), i, SavingPayment(r))
    case SavingPayment(r) => At(s.(paid := false), i, Replying(true))
    case SavingRejected(r) => At(SetRefund(s, r, Rejected), i, Replying(false))
    case Replying(ok) => At(Deliver(s, i, ok), i, Done)
    case Done => s
  }

  /** After the insert, the catch block marks the refund row FAILED and the controller answers false.
      A gateway call that throws has still been attempted. */
  function ServeThrow(s: State, i: nat): State
    requires i < |s.servers|
  {
    match s.servers[i].phase
    case Refunding(r) => At(s.(gateway := s.gateway + 1), i, SavingRejected(r))
    case SavingProcessed(r) => At(s, i, SavingRejected(r))
    case SavingPayment(r) => At(s, i, SavingRejected(r))
    case Done => s
    case Replying(_) => At(s, i, Done)
    case _ => At(s, i, Replying(false))
  }

  function Apply(s: State, ev: Event): State {
    match ev
    case Cancel(key) => s.(driver := LoadForCancel(s.row, key))
    case Recover => s.(driver := Top(s.row, 0))
    case Drive => DriveStep(s)
    case DriveThrows(saved) => DriveThrow(s, saved)
    case DriverCrash => s.(driver := Idle)
    case Serve(i, accepted) => if i < |s.servers| then ServeStep(s, i, accepted) else s
    case ServeThrows(i) => if i < |s.servers| then ServeThrow(s, i) else s
    case ServerCrash(i) => if i < |s.servers| then At(s, i, Done) else s
  }

  // ----- the invariant

  /** initiated -> refunded -> released -> completed, or initiated -> failed. */
  predicate Edge(a: Option<RefundState>, b: Option<RefundState>) {
    || (a == None && b == Some(RefundInitiated))
    || (a == Some(RefundInitiated) && b == Some(PaymentRefunded))
    || (a == Some(RefundInitiated) && b == Some(Failed))
    || (a == Some(PaymentRefunded) && b == Some(SeatsReleased))
    || (a == Some(SeatsReleased) && b == Some(Completed))
  }

  predicate PastInitiated(r: Option<RefundState>) {
    r == Some(PaymentRefunded) || PastRefunded(r)
  }

  predicate PastRefunded(r: Option<RefundState>) {
    r == Some(SeatsReleased) || r == Some(Completed)
  }

  predicate Backed(s: State, r: Option<RefundState>) {
    (PastInitiated(r) ==> s.goodReplies > 0) && (PastRefunded(r) ==> s.seatReplies > 0)
  }

  /** How many iterations have at most been used when the loop stands at this state. */
  function StepsUsed(r: Option<RefundState>): nat {
    if r == Some(PaymentRefunded) then 1 else if r == Some(SeatsReleased) then 2 else 0
  }

  predicate DriverOk(s: State) {
    match s.driver
    case Idle => true
    case SavingFirst(mem) => s.row.refund.None? && mem.refund == Some(RefundInitiated) && mem.key.Some?
    case Top(mem, step) => mem == s.row && mem.refund.Some? && step <= StepsUsed(mem.refund)
    case Awaiting(mem, step, call) =>
      mem == s.row && mem.refund == Some(RefundInitiated) && step == 0 && call == |s.servers| - 1
    case Saving(mem, step) =>
      && mem.key == s.row.key && Edge(s.row.refund, mem.refund) && Backed(s, mem.refund)
      && (mem.refund == Some(PaymentRefunded) || mem.refund == Some(SeatsReleased)) && step < StepsUsed(mem.refund)
    case SavingFailed(mem) => mem.key == s.row.key && Edge(s.row.refund, mem.refund) && mem.refund == Some(Failed)
    case Committing(mem) =>
      mem.key == s.row.key && Edge(s.row.refund, mem.refund) && mem.refund == Some(Completed) && Backed(s, mem.refund)
    case Catching(mem) =>
      mem.key == s.row.key && mem.refund.Some? && (mem.refund == s.row.refund || Edge(s.row.refund, mem.refund))
          && s.row.refund.Some? && Backed(s, mem.refund)
  }

  /** The one refund row is PROCESSED. */
  predicate Paid(s: State) {
    |s.refunds| == 1 && s.refunds[0].status == Processed
  }

  /** What one refund call may rely on while no other one is executed. */
  predicate ServerOk(s: State, p: Server) {
    match p
    case Inserting => s.refunds == []
    case Refunding(r) => r == 0 && |s.refunds| == 1 && s.refunds[0].status == Pending && s.gateway == 0
    case SavingProcessed(r) => r == 0 && |s.refunds| == 1 && s.accepted == 1 && s.goodReplies == 0
    case SavingPayment(r) => r == 0 && Paid(s) && s.goodReplies == 0
    case SavingRejected(r) => r == 0 && |s.refunds| == 1 && s.goodReplies == 0
    case Replying(ok) => ok ==> Paid(s)
    case _ => true
  }

  /** At most one refund row, under the booking's key, and one gateway call; the row is PROCESSED only if the
      gateway accepted, and if the driver ever saw a good reply. */
  predicate RefundsOk(s: State) {
    && (forall i :: 0 <= i < |s.refunds| ==> s.row.key == Some(s.refunds[i].key))
    && s.accepted <= s.gateway <= |s.refunds| <= 1
    && (Paid(s) ==> s.accepted == 1)
    && (s.goodReplies > 0 ==> Paid(s))
  }

  predicate ServersInv(s: State) {
    && (s.row.key.None? ==> s.refunds == [] && s.servers == [])
    && RefundsOk(s)
    && (forall i :: 0 <= i < |s.servers| ==> s.row.key == Some(s.servers[i].key))
    && (forall i :: 0 <= i < |s.servers| - 1 ==> s.servers[i].phase.Done?)
    && (s.servers != [] ==> ServerOk(s, s.servers[|s.servers| - 1].phase))
  }

  predicate DriverInv(s: State) {
    (s.row.refund.Some? <==> s.row.key.Some?) && Backed(s, s.row.refund) && DriverOk(s) && !s.exhausted
  }

  predicate Inv(s: State) {
    ServersInv(s) && DriverInv(s)
  }

  /** The driver leaves the payment service's side alone. */
  lemma ServersUntouched(s: State, s': State)
    requires ServersInv(s) && s'.refunds == s.refunds && s'.servers == s.servers
    requires s'.gateway == s.gateway && s'.accepted == s.accepted && s'.goodReplies == s.goodReplies
    requires s.row.key.Some? ==> s'.row.key == s.row.key
    ensures ServersInv(s')
  {
  }

  lemma CallKeepsInv(s: State)
    requires Inv(s) && Enabled(s, Drive, true) && s.driver.Top? && s.driver.mem.refund == Some(RefundInitiated)
    ensures Inv(DriveStep(s))
  {
    var s' := DriveStep(s);
    assert s'.servers == s.servers + [Exec(s.row.key.value, FindingPayment)];
    assert forall i :: 0 <= i < |s.servers| ==> s'.servers[i] == s.servers[i];
  }

  lemma DriveKeepsInv(s: State)
    requires Inv(s) && Enabled(s, Drive, true)
    ensures Inv(DriveStep(s))
  {
    if s.driver.Top? && s.driver.mem.refund == Some(RefundInitiated) {
      CallKeepsInv(s);
    } else {
      ServersUntouched(s, DriveStep(s));
      StepKeepsDriver(s);
    }
  }

  lemma StepKeepsDriver(s: State)
    requires DriverInv(s) && !s.driver.Awaiting? && !(s.driver.Top? && s.driver.mem.refund == Some(RefundInitiated))
    ensures DriverInv(DriveStep(s))
  {
  }

  lemma ThrowKeepsInv(s: State, saved: bool)
    requires Inv(s)
    ensures Inv(DriveThrow(s, saved))
  {
    ServersUntouched(s, DriveThrow(s, saved));
    ThrowKeepsDriver(s, saved);
  }

  lemma ThrowKeepsDriver(s: State, saved: bool)
    requires DriverInv(s)
    ensures DriverInv(DriveThrow(s, saved))
  {
  }

  /** What a step of the last call changes: the refund rows, the gateway, the payment and its own phase. */
  ghost predicate Moved(s: State, s': State, i: nat)
    requires i < |s.servers|
  {
    && i < |s'.servers|
    && s' == At(s.(refunds := s'.refunds, gateway := s'.gateway, accepted := s'.accepted, paid := s'.paid), i,
                s'.servers[i].phase)
    && RefundsOk(s') && ServerOk(s', s'.servers[i].phase)
  }

  /** The driver does not look at server phases or refund rows. */
  lemma MoveKeepsInv(s: State, i: nat, s': State)
    requires Inv(s) && i < |s.servers| && i == |s.servers| - 1 && Moved(s, s', i)
    ensures Inv(s')
  {
    hide ServerOk, RefundsOk;
  }

  lemma LastIsOpen(s: State, i: nat)
    requires ServersInv(s) && i < |s.servers| && !s.servers[i].phase.Done?
    ensures i == |s.servers| - 1 && ServerOk(s, s.servers[i].phase) && s.row.key == Some(s.servers[i].key)
  {
  }

  lemma DeliverKeepsServers(s: State, i: nat)
    requires ServersInv(s) && i < |s.servers| && s.servers[i].phase.Replying?
    ensures ServersInv(At(Deliver(s, i, s.servers[i].phase.ok), i, Done))
  {
    LastIsOpen(s, i);
  }

  lemma DeliverKeepsDriver(s: State, i: nat)
    requires Inv(s) && i < |s.servers| && s.servers[i].phase.Replying?
    ensures DriverInv(At(Deliver(s, i, s.servers[i].phase.ok), i, Done))
  {
    hide ServerOk, RefundsOk;
    LastIsOpen(s, i);
  }

  lemma ServeKeepsInv(s: State, i: nat, accepted: bool)
    requires Inv(s) && i < |s.servers| && !s.servers[i].phase.Done?
    ensures Inv(ServeStep(s, i, accepted))
  {
    hide ServersInv, DriverInv, KeyRow, ServerOk;
    LastIsOpen(s, i);
    if s.servers[i].phase.Replying? {
      DeliverKeepsServers(s, i);
      DeliverKeepsDriver(s, i);
    } else {
      ServeStepMoves(s, i, accepted);
      MoveKeepsInv(s, i, ServeStep(s, i, accepted));
    }
  }

  lemma FindingMoves(s: State, i: nat, accepted: bool)
    requires ServersInv(s) && i < |s.servers| && i == |s.servers| - 1
    requires s.servers[i].phase.FindingPayment? || s.servers[i].phase.FindingKey?
    ensures Moved(s, ServeStep(s, i, accepted), i)
  {
  }

  lemma ServeStepMoves(s: State, i: nat, accepted: bool)
    requires ServersInv(s) && i < |s.servers| && i == |s.servers| - 1
    requires !s.servers[i].phase.Done? && !s.servers[i].phase.Replying?
    ensures Moved(s, ServeStep(s, i, accepted), i)
  {
    hide KeyRow;
    if s.servers[i].phase.FindingPayment? || s.servers[i].phase.FindingKey? {
      FindingMoves(s, i, accepted);
    }
  }

  lemma ServeThrowKeepsInv(s: State, i: nat)
    requires Inv(s) && i < |s.servers| && !s.servers[i].phase.Done?
    ensures Inv(ServeThrow(s, i))
  {
    hide ServersInv, DriverInv;
    LastIsOpen(s, i);
    ServeThrowMoves(s, i);
    MoveKeepsInv(s, i, ServeThrow(s, i));
  }

  lemma RejectingMoves(s: State, i: nat)
    requires ServersInv(s) && i < |s.servers| && i == |s.servers| - 1
    requires s.servers[i].phase.Refunding? || s.servers[i].phase.SavingProcessed? || s.servers[i].phase.SavingPayment?
    ensures Moved(s, ServeThrow(s, i), i)
  {
  }

  lemma ServeThrowMoves(s: State, i: nat)
    requires ServersInv(s) && i < |s.servers| && i == |s.servers| - 1 && !s.servers[i].phase.Done?
    ensures Moved(s, ServeThrow(s, i), i)
  {
    var p := s.servers[i].phase;
    if p.Refunding? || p.SavingProcessed? || p.SavingPayment? {
      RejectingMoves(s, i);
    }
  }

  lemma ServerCrashKeepsInv(s: State, i: nat)
    requires Inv(s) && i < |s.servers|
    ensures Inv(At(s, i, Done))
  {
    if s.servers[i].phase.Done? {
      assert At(s, i, Done).servers == s.servers;
    } else {
      LastIsOpen(s, i);
      MoveKeepsInv(s, i, At(s, i, Done));
    }
  }

  lemma EventKeepsInv(s: State, ev: Event)
    requires Inv(s) && Enabled(s, ev, true)
    ensures Inv(Apply(s, ev))
  {
    match ev
    case Drive => DriveKeepsInv(s);
    case DriveThrows(saved) => ThrowKeepsInv(s, saved);
    case Serve(i, accepted) => ServeKeepsInv(s, i, accepted);
    case ServeThrows(i) => ServeThrowKeepsInv(s, i);
    case ServerCrash(i) => ServerCrashKeepsInv(s, i);
    case Cancel(_) => ServersUntouched(s, Apply(s, ev));
    case Recover => ServersUntouched(s, Apply(s, ev));
    case DriverCrash => ServersUntouched(s, Apply(s, ev));
  }

  /** Persisted states follow the edges, and the refund key never changes once it is set. */
  lemma {:induction false} PersistedStateFollowsEdges(s: State, ev: Event)
    requires Inv(s) && Enabled(s, ev, true)
    ensures var s' := Apply(s, ev);
            && (s'.row.refund == s.row.refund || Edge(s.row.refund, s'.row.refund))
            && (s.row.key.Some? ==> s'.row.key == s.row.key)
  {
  }

  // ----- whole runs

  function Run(s: State, evs: seq<Event>): State {
    if evs == [] then s else Apply(Run(s, evs[..|evs| - 1]), evs[|evs| - 1])
  }

  predicate Allowed(s: State, evs: seq<Event>, serial: bool) {
    evs == [] || (Allowed(s, evs[..|evs| - 1], serial) && Enabled(Run(s, evs[..|evs| - 1]), evs[|evs| - 1], serial))
  }

  /** A confirmed, paid booking nobody has cancelled yet. */
  const Start := State(Row(Confirmed, None, None, 0), true, [], Idle, [], 0, 0, 0, 0, false)

  lemma {:induction false} RunKeepsInv(evs: seq<Event>)
    requires Allowed(Start, evs, true)
    ensures Inv(Run(Start, evs))
  {
    if evs != [] {
      RunKeepsInv(evs[..|evs| - 1]);
      EventKeepsInv(Run(Start, evs[..|evs| - 1]), evs[|evs| - 1]);
    }
  }

  ghost predicate Effects(s: State) {
    && s.gateway <= 1 && |s.refunds| <= 1
    && (forall i :: 0 <= i < |s.refunds| && s.refunds[i].status == Processed ==> s.accepted == 1)
    && (PastInitiated(s.row.refund) ==>
         && s.goodReplies > 0 && s.gateway == s.accepted == 1
         && s.row.key.Some? && s.refunds == [RefundRow(s.row.key.value, Processed)])
    && (PastRefunded(s.row.refund) ==> s.seatReplies > 0)
    && !s.exhausted
  }

  lemma InvEffects(s: State)
    requires Inv(s)
    ensures Effects(s)
  {
  }

  /** Over every run with crashes, exceptions and lost replies: at most one gateway refund is attempted, and a
      refund row is PROCESSED only if the gateway accepted; in a persisted state past initiated there is exactly
      one refund row, PROCESSED under the booking's key, and the driver has seen a good reply; one past refunded
      follows a returned seat-release call; the five-step bound of the loop is never exhausted. */
  lemma {:induction false} RefundEffects(evs: seq<Event>)
    requires Allowed(Start, evs, true)
    ensures Effects(Run(Start, evs))
  {
    hide Inv, Effects;
    RunKeepsInv(evs);
    InvEffects(Run(Start, evs));
  }

  // ----- the serial hypothesis is needed: the refund key is not unique in the database

  ghost predicate Reachable(s: State, serial: bool) {
    exists evs :: Allowed(Start, evs, serial) && Run(Start, evs) == s
  }

  lemma ReachNext(s: State, ev: Event, s': State, serial: bool)
    requires Reachable(s, serial) && Enabled(s, ev, serial) && Apply(s, ev) == s'
    ensures Reachable(s', serial)
  {
    var evs :| Allowed(Start, evs, serial) && Run(Start, evs) == s;
    assert (evs + [ev])[..|evs|] == evs;
    assert Allowed(Start, evs + [ev], serial) && Run(Start, evs + [ev]) == s';
  }

  const Initiated := Row(Confirmed, Some(RefundInitiated), Some(7), 0)

  lemma FirstCallSent(serial: bool)
    ensures var call := Exec(7, FindingPayment);
            Reachable(State(Initiated, true, [], Awaiting(Initiated, 0, 0), [call], 0, 0, 0, 0, false), serial)
  {
    assert Allowed(Start, [], serial) && Run(Start, []) == Start;
    var s1 := Start.(driver := SavingFirst(Initiated));
    ReachNext(Start, Cancel(7), s1, serial);
    var s2 := s1.(row := Initiated, driver := Top(Initiated, 0));
    ReachNext(s1, Drive, s2, serial);
    ReachNext(s2, Drive, s2.(driver := Awaiting(Initiated, 0, 0), servers := [Exec(7, FindingPayment)]), serial);
  }

  lemma FirstCallFindsNothing(serial: bool)
    ensures var call := Exec(7, Inserting);
            Reachable(State(Initiated, true, [], Awaiting(Initiated, 0, 0), [call], 0, 0, 0, 0, false), serial)
  {
    FirstCallSent(serial);
    var s1 := State(Initiated, true, [], Awaiting(Initiated, 0, 0), [Exec(7, FindingPayment)], 0, 0, 0, 0, false);
    var s2 := s1.(servers := [Exec(7, FindingKey)]);
    ReachNext(s1, Serve(0, true), s2, serial);
    ReachNext(s2, Serve(0, true), s2.(servers := [Exec(7, Inserting)]), serial);
  }

  /** A first refund call whose reply was lost has found no refund row and is about to insert one. */
  lemma FirstCallInFlight(serial: bool)
    ensures Reachable(State(Initiated.(retries := 1), true, [], Idle, [Exec(7, Inserting)], 0, 0, 0, 0, false), serial)
  {
    FirstCallFindsNothing(serial);
    var s1 := State(Initiated, true, [], Awaiting(Initiated, 0, 0), [Exec(7, Inserting)], 0, 0, 0, 0, false);
    var s2 := s1.(driver := Catching(Initiated));
    ReachNext(s1, DriveThrows(false), s2, serial);
    ReachNext(s2, Drive, s2.(row := Initiated.(retries := 1), driver := Idle), serial);
  }

  lemma SecondCallAsWell()
    ensures Reachable(State(Row(Confirmed, Some(RefundInitiated), Some(7), 1), true, [],
                            Awaiting(Row(Confirmed, Some(RefundInitiated), Some(7), 1), 0, 1),
                            [Exec(7, Inserting), Exec(7, Inserting)], 0, 0, 0, 0, false), false)
  {
    FirstCallInFlight(false);
    var row := Row(Confirmed, Some(RefundInitiated), Some(7), 1);
    var s0 := State(row, true, [], Idle, [Exec(7, Inserting)], 0, 0, 0, 0, false);
    var s1 := s0.(driver := Top(row, 0));
    ReachNext(s0, Recover, s1, false);
    var s2 := s1.(driver := Awaiting(row, 0, 1), servers := [Exec(7, Inserting), Exec(7, FindingPayment)]);
    ReachNext(s1, Drive, s2, false);
    var s3 := s2.(servers := [Exec(7, Inserting), Exec(7, FindingKey)]);
    ReachNext(s2, Serve(1, true), s3, false);
    ReachNext(s3, Serve(1, true), s3.(servers := [Exec(7, Inserting), Exec(7, Inserting)]), false);
  }

  /** Two overlapping executions of the same refund call refund twice. */
  lemma {:induction false} OverlappingCallsRefundTwice()
    ensures exists s :: Reachable(s, false) && s.gateway == s.accepted == 2
  {
    hide Reachable, Enabled, KeyRow;
    SecondCallAsWell();
    var row := Row(Confirmed, Some(RefundInitiated), Some(7), 1);
    var s0 := State(row, true, [], Awaiting(row, 0, 1), [Exec(7, Inserting), Exec(7, Inserting)], 0, 0, 0, 0, false);
    var s1 := s0.(refunds := [RefundRow(7, Pending)], servers := [Exec(7, Inserting), Exec(7, Refunding(0))]);
    ReachNext(s0, Serve(1, true), s1, false);
    var s2 := s1.(gateway := 1, accepted := 1, servers := [Exec(7, Inserting), Exec(7, SavingProcessed(0))]);
    ReachNext(s1, Serve(1, true), s2, false);
    var s3 := s2.(refunds := [RefundRow(7, Pending), RefundRow(7, Pending)],
        servers := [Exec(7, Refunding(1)), Exec(7, SavingProcessed(0))]);
    ReachNext(s2, Serve(0, true), s3, false);
    var s4 := s3.(gateway := 2, accepted := 2, servers := [Exec(7, SavingProcessed(1)), Exec(7, SavingProcessed(0))]);
    ReachNext(s3, Serve(0, true), s4, false);
  }

  // ----- a refund that nothing interrupts

  /** These events can happen, one after the other, and lead there. */
  ghost predicate Leads(evs: seq<Event>, s: State) {
    Allowed(Start, evs, true) && Run(Start, evs) == s
  }

  lemma LeadsOn(evs: seq<Event>, s: State, ev: Event, s': State)
    requires Leads(evs, s) && Enabled(s, ev, true) && Apply(s, ev) == s'
    ensures Leads(evs + [ev], s')
  {
    hide Enabled, Apply;
    assert (evs + [ev])[..|evs|] == evs;
  }

  /** The booking row of a refund under this key. */
  function RowWith(key: Key, status: BookingStatus, refund: RefundState, retries: nat): Row {
    Row(status, Some(refund), Some(key), retries)
  }

  /** The cancellation, up to the moment when the refund call is about to write its row. */
  function Opening(key: Key): seq<Event> {
    [Cancel(key)] + [Drive] + [Drive] + [Serve(0, true)] + [Serve(0, true)] + [Serve(0, true)]
  }

  function Called(key: Key): State {
    var row := RowWith(key, Confirmed, RefundInitiated, 0);
    State(row, true, [RefundRow(key, Pending)], Awaiting(row, 0, 0), [Exec(key, Refunding(0))], 0, 0, 0, 0, false)
  }

  lemma OpeningLeads(key: Key)
    ensures Leads(Opening(key), Called(key))
  {
    hide Leads;
    var row := RowWith(key, Confirmed, RefundInitiated, 0);
    assert Leads([], Start) by { NothingLeads(); }
    var s1 := Start.(driver := SavingFirst(row));
    LeadsOn([], Start, Cancel(key), s1);
    assert [] + [Cancel(key)] == [Cancel(key)];
    var s2 := s1.(row := row, driver := Top(row, 0));
    LeadsOn([Cancel(key)], s1, Drive, s2);
    var s3 := s2.(driver := Awaiting(row, 0, 0), servers := [Exec(key, FindingPayment)]);
    LeadsOn([Cancel(key)] + [Drive], s2, Drive, s3);
    var s4 := s3.(servers := [Exec(key, FindingKey)]);
    LeadsOn([Cancel(key)] + [Drive] + [Drive], s3, Serve(0, true), s4);
    var s5 := s4.(servers := [Exec(key, Inserting)]);
    LeadsOn([Cancel(key)] + [Drive] + [Drive] + [Serve(0, true)], s4, Serve(0, true), s5);
    LeadsOn([Cancel(key)] + [Drive] + [Drive] + [Serve(0, true)] + [Serve(0, true)], s5, Serve(0, true), Called(key));
  }

  lemma NothingLeads()
    ensures Leads([], Start)
  {
  }

  /** The gateway accepts: the payment service saves both rows and answers true. */
  function AcceptedCourse(key: Key): seq<Event> {
    Opening(key) + [Serve(0, true)] + [Serve(0, true)] + [Serve(0, true)] + [Serve(0, true)]
  }

  lemma AcceptedLeads(key: Key)
    ensures var row := RowWith(key, Confirmed, RefundInitiated, 0);
            Leads(AcceptedCourse(key),
                  State(row, false, [RefundRow(key, Processed)], Saving(row.(refund := Some(PaymentRefunded)), 0),
                        [Exec(key, Done)], 1, 1, 1, 0, false))
  {
    hide Leads;
    OpeningLeads(key);
    var s0, evs := Called(key), Opening(key);
    var s1 := s0.(gateway := 1, accepted := 1, servers := [Exec(key, SavingProcessed(0))]);
    LeadsOn(evs, s0, Serve(0, true), s1);
    var s2 := s1.(refunds := [RefundRow(key, Processed)], servers := [Exec(key, SavingPayment(0))]);
    LeadsOn(evs + [Serve(0, true)], s1, Serve(0, true), s2);
    var s3 := s2.(paid := false, servers := [Exec(key, Replying(true))]);
    LeadsOn(evs + [Serve(0, true)] + [Serve(0, true)], s2, Serve(0, true), s3);
    var row := RowWith(key, Confirmed, RefundInitiated, 0);
    var s4 := s3.(driver := Saving(row.(refund := Some(PaymentRefunded)), 0), goodReplies := 1,
                  servers := [Exec(key, Done)]);
    LeadsOn(evs + [Serve(0, true)] + [Serve(0, true)] + [Serve(0, true)], s3, Serve(0, true), s4);
  }

  /** A refund that the gateway accepts and nothing interrupts ends COMPLETED, with the payment REFUNDED, one
      PROCESSED refund row and no retry. */
  lemma {:induction false} AcceptedRefundCompletes(key: Key)
    ensures Leads(AcceptedCourse(key) + [Drive] + [Drive] + [Drive] + [Drive] + [Drive],
                  State(RowWith(key, Refunded, Completed, 0), false, [RefundRow(key, Processed)], Idle,
                        [Exec(key, Done)], 1, 1, 1, 1, false))
  {
    hide Leads;
    AcceptedLeads(key);
    var evs := AcceptedCourse(key);
    var refunded, released := RowWith(key, Confirmed, PaymentRefunded, 0), RowWith(key, Confirmed, SeatsReleased, 0);
    var done := RowWith(key, Refunded, Completed, 0);
    var s0 := State(RowWith(key, Confirmed, RefundInitiated, 0), false, [RefundRow(key, Processed)],
                    Saving(refunded, 0), [Exec(key, Done)], 1, 1, 1, 0, false);
    var s1 := s0.(row := refunded, driver := Top(refunded, 1));
    LeadsOn(evs, s0, Drive, s1);
    var s2 := s1.(driver := Saving(released, 1), seatReplies := 1);
    LeadsOn(evs + [Drive], s1, Drive, s2);
    var s3 := s2.(row := released, driver := Top(released, 2));
    LeadsOn(evs + [Drive] + [Drive], s2, Drive, s3);
    var s4 := s3.(driver := Committing(done));
    LeadsOn(evs + [Drive] + [Drive] + [Drive], s3, Drive, s4);
    LeadsOn(evs + [Drive] + [Drive] + [Drive] + [Drive], s4, Drive, s4.(row := done, driver := Idle));
  }

  /** One that the gateway declines ends FAILED with one retry counted, and the payment stays. */
  lemma {:induction false} DeclinedRefundFails(key: Key)
    ensures Leads(Opening(key) + [Serve(0, false)] + [Serve(0, false)] + [Serve(0, false)] + [Drive] + [Drive],
                  State(RowWith(key, Confirmed, Failed, 1), true, [RefundRow(key, Rejected)], Idle,
                        [Exec(key, Done)], 1, 0, 0, 0, false))
  {
    hide Leads;
    OpeningLeads(key);
    var s0, evs := Called(key), Opening(key);
    var failed := RowWith(key, Confirmed, Failed, 0);
    var s1 := s0.(gateway := 1, servers := [Exec(key, SavingRejected(0))]);
    LeadsOn(evs, s0, Serve(0, false), s1);
    var s2 := s1.(refunds := [RefundRow(key, Rejected)], servers := [Exec(key, Replying(false))]);
    LeadsOn(evs + [Serve(0, false)], s1, Serve(0, false), s2);
    var s3 := s2.(driver := SavingFailed(failed), servers := [Exec(key, Done)]);
    LeadsOn(evs + [Serve(0, false)] + [Serve(0, false)], s2, Serve(0, false), s3);
    var s4 := s3.(row := failed, driver := Catching(failed));
    LeadsOn(evs + [Serve(0, false)] + [Serve(0, false)] + [Serve(0, false)], s3, Drive, s4);
    LeadsOn(evs + [Serve(0, false)] + [Serve(0, false)] + [Serve(0, false)] + [Drive], s4, Drive,
            s4.(row := failed.(retries := 1), driver := Idle));
  }

  /** The worker drives an unfinished refund up to its fourth counted retry, and no longer. */
  lemma FiveRetriesAreEnough(s: State, serial: bool)
    requires s.driver.Idle? && Unfinished(s.row.refund)
    ensures s.row.retries <= 4 ==> Enabled(s, Recover, serial)
    ensures s.row.retries >= 5 ==> !Enabled(s, Recover, serial)
  {
  }

  /** A crash of the payment service between its two saves, and a driver that comes back: the refund is
      completed, and the payment is still SUCCEEDED. */
  lemma {:induction false} PaymentCanStaySucceeded(key: Key)
    ensures exists evs, s :: Leads(evs, s) && s.row == RowWith(key, Refunded, Completed, 1) && s.paid
  {
    hide Leads;
    OpeningLeads(key);
    var row := RowWith(key, Confirmed, RefundInitiated, 0);
    var again := RowWith(key, Confirmed, RefundInitiated, 1);
    var s0, evs := Called(key), Opening(key);
    var s1 := s0.(gateway := 1, accepted := 1, servers := [Exec(key, SavingProcessed(0))]);
    LeadsOn(evs, s0, Serve(0, true), s1);
    var s2 := s1.(refunds := [RefundRow(key, Processed)], servers := [Exec(key, SavingPayment(0))]);
    evs := evs + [Serve(0, true)];
    LeadsOn(evs, s1, Serve(0, true), s2);
    var s3 := s2.(servers := [Exec(key, Done)]);
    evs := evs + [Serve(0, true)];
    LeadsOn(evs, s2, ServerCrash(0), s3);
    var s4 := s3.(driver := Catching(row));
    evs := evs + [ServerCrash(0)];
    LeadsOn(evs, s3, DriveThrows(false), s4);
    var s5 := s4.(row := again, driver := Idle);
    evs := evs + [DriveThrows(false)];
    LeadsOn(evs, s4, Drive, s5);
    SecondCallCompletes(evs + [Drive], key, s5);
  }

  lemma SecondCallCompletes(first: seq<Event>, key: Key, s0: State)
    requires var again := RowWith(key, Confirmed, RefundInitiated, 1);
             s0 == State(again, true, [RefundRow(key, Processed)], Idle, [Exec(key, Done)], 1, 1, 0, 0, false)
    requires Leads(first, s0)
    ensures exists evs, s :: Leads(evs, s) && s.row == RowWith(key, Refunded, Completed, 1) && s.paid
  {
    hide Leads;
    var evs, row := first, s0.row;
    var s1 := s0.(driver := Top(row, 0));
    LeadsOn(evs, s0, Recover, s1);
    var s2 := s1.(driver := Awaiting(row, 0, 1), servers := [Exec(key, Done), Exec(key, FindingPayment)]);
    evs := evs + [Recover];
    LeadsOn(evs, s1, Drive, s2);
    var s3 := s2.(servers := [Exec(key, Done), Exec(key, FindingKey)]);
    evs := evs + [Drive];
    LeadsOn(evs, s2, Serve(1, true), s3);
    var s4 := s3.(servers := [Exec(key, Done), Exec(key, Replying(true))]);
    evs := evs + [Serve(1, true)];
    LeadsOn(evs, s3, Serve(1, true), s4);
    var refunded := row.(refund := Some(PaymentRefunded));
    var s5 := s4.(driver := Saving(refunded, 0), goodReplies := 1, servers := [Exec(key, Done), Exec(key, Done)]);
    evs := evs + [Serve(1, true)];
    LeadsOn(evs, s4, Serve(1, true), s5);
    SavedCompletes(evs + [Serve(1, true)], key, s5);
  }

  lemma SavedCompletes(first: seq<Event>, key: Key, s0: State)
    requires s0.driver == Saving(RowWith(key, Confirmed, PaymentRefunded, 1), 0) && s0.paid && Leads(first, s0)
    ensures exists evs, s :: Leads(evs, s) && s.row == RowWith(key, Refunded, Completed, 1) && s.paid
  {
    hide Leads;
    var refunded, released := RowWith(key, Confirmed, PaymentRefunded, 1), RowWith(key, Confirmed, SeatsReleased, 1);
    var done := RowWith(key, Refunded, Completed, 1);
    var s1 := s0.(row := refunded, driver := Top(refunded, 1));
    LeadsOn(first, s0, Drive, s1);
    var s2 := s1.(driver := Saving(released, 1), seatReplies := s1.seatReplies + 1);
    LeadsOn(first + [Drive], s1, Drive, s2);
    var s3 := s2.(row := released, driver := Top(released, 2));
    LeadsOn(first + [Drive] + [Drive], s2, Drive, s3);
    var s4 := s3.(driver := Committing(done));
    LeadsOn(first + [Drive] + [Drive] + [Drive], s3, Drive, s4);
    var s5 := s4.(row := done, driver := Idle);
    LeadsOn(first + [Drive] + [Drive] + [Drive] + [Drive], s4, Drive, s5);
  }
}
