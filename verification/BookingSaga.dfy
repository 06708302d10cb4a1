/** The booking orchestrator at the granularity of its service calls and transactions: creating a
    booking, and the persisted refund state machine. */
module BookingSaga {
  import opened Basics
  import opened SeatStore
  import Payments
  import Tickets

  datatype BookingStatus = PendingBooking | Confirmed | CancelledBooking | RefundedBooking

  datatype RefundState = RefundInitiated | PaymentRefunded | SeatsReleased | Completed | Failed

  datatype Item = Item(seat: Id, price: int)

  datatype Booking = Booking(
    user: Id,
    event: Id,
    items: seq<Item>,
    total: int,
    status: BookingStatus,
    refund: Option<RefundState>,
    refundKey: Option<Id>,
    retries: nat)

  datatype OutboxKind = MarkSold | BookingConfirmed | BookingRefunded

  datatype OutboxRow = OutboxRow(kind: OutboxKind, booking: nat)

  /** The databases the booking saga writes, its own and those behind the calls it makes. */
  datatype World = World(
    bookings: seq<Booking>,
    outbox: seq<OutboxRow>,
    tickets: seq<Tickets.Ticket>,
    pay: Payments.Db,
    seats: Store)

  function SeatsOf(b: Booking): (ids: seq<Id>)
    ensures |ids| == |b.items| && forall i :: 0 <= i < |ids| ==> ids[i] == b.items[i].seat
  {
    seq(|b.items|, i requires 0 <= i < |b.items| => b.items[i].seat)
  }

  function SetBooking(w: World, b: nat, row: Booking): World {
    if b < |w.bookings| then w.(bookings := w.bookings[b := row]) else w
  }

  // ----- the refund state machine

  /** The step at which a drive of the state machine throws. */
  datatype Fault =
    | NoFault
    | AtRefund       // the refund call, before it takes effect
    | SavingReply    // the save of PAYMENT_REFUNDED or FAILED
    | AtSeatRelease  // the seat release call, before it takes effect
    | SavingReleased // the save of SEATS_RELEASED
    | AtTicketCancel // the ticket cancellation, before it takes effect
    | AtCommit       // the final transaction, after the in-memory booking was changed

  /** What the world does to one drive: where it throws, how far the seat release gets (short of its end the
      answer is `success: false`, which nobody looks at), whether the save in the outer catch succeeds, and
      what the gateway answers. */
  datatype DriveEnv = DriveEnv(fault: Fault, release: Reach, recorded: bool, answer: Payments.Answer)

  function Smooth(a: Payments.Answer): DriveEnv {
    DriveEnv(NoFault, Finished, true, a)
  }

  /** The outcome of the refund call is saved neither by the step nor by the catch. */
  predicate Unheard(env: DriveEnv) {
    env.fault == SavingReply && !env.recorded
  }

  datatype Verdict = Continues | Returns | Throws

  /** The outer catch: count the retry on the booking in memory, and save it if that works. */
  function Caught(w: World, b: nat, row: Booking, recorded: bool): World {
    if recorded then SetBooking(w, b, row.(retries := row.retries + 1)) else w
  }

  /** The save after a step: the loop goes on, or the save throws into the outer catch. */
  function Saved(w: World, b: nat, row: Booking, throws: bool, recorded: bool): (World, Verdict) {
    if throws then (Caught(w, b, row, recorded), Throws) else (SetBooking(w, b, row), Continues)
  }

  /** State REFUND_INITIATED: the refund call decides between PAYMENT_REFUNDED and FAILED. */
  function RefundCallStep(w: World, b: nat, env: DriveEnv): (World, Verdict)
    requires b < |w.bookings|
  {
    var row := w.bookings[b];
    if env.fault == AtRefund then (Caught(w, b, row, env.recorded), Throws)
    else
      var reply := Payments.GiveBack(w.pay, b, row.refundKey.GetOr(""), env.answer);
      var w' := w.(pay := reply.db);
      if Payments.RefundSucceeded(reply) then
        Saved(w', b, row.(refund := Some(PaymentRefunded)), env.fault == SavingReply, env.recorded)
      else
        var failed := row.(refund := Some(Failed));
        var w' := if env.fault == SavingReply then w' else SetBooking(w', b, failed);
        (Caught(w', b, failed, env.recorded), Throws)
  }

  /** State PAYMENT_REFUNDED: the seats are released, whatever the reply says. */
  function SeatReleaseStep(w: World, b: nat, env: DriveEnv): (World, Verdict)
    requires b < |w.bookings|
  {
    var row := w.bookings[b];
    if env.fault == AtSeatRelease then (Caught(w, b, row, env.recorded), Throws)
    else
      var seats := ReleaseSoldUpTo(w.seats, row.event, SeatsOf(row), env.release);
      Saved(w.(seats := seats), b, row.(refund := Some(SeatsReleased)), env.fault == SavingReleased, env.recorded)
  }

  /** State SEATS_RELEASED: tickets, then booking and outbox row in one transaction.  When it is rolled back
      the outer catch saves the booking as it was changed in memory. */
  function CompleteStep(w: World, b: nat, env: DriveEnv): (World, Verdict)
    requires b < |w.bookings|
  {
    var row := w.bookings[b];
    if env.fault == AtTicketCancel then (Caught(w, b, row, env.recorded), Throws)
    else
      var w' := w.(tickets := Tickets.CancelAll(w.tickets, b));
      var done := row.(status := RefundedBooking, refund := Some(Completed));
      if env.fault == AtCommit then (Caught(w', b, done, env.recorded), Throws)
      else (SetBooking(w', b, done).(outbox := w.outbox + [OutboxRow(BookingRefunded, b)]), Returns)
  }

  /** One iteration of the loop in `processRefundStateMachine`. */
  function MachineStep(w: World, b: nat, env: DriveEnv): (r: (World, Verdict))
    requires b < |w.bookings|
    ensures |r.0.bookings| == |w.bookings|
    ensures forall j :: 0 <= j < |w.bookings| && j != b ==> r.0.bookings[j] == w.bookings[j]
  {
    match w.bookings[b].refund
    case Some(RefundInitiated) => RefundCallStep(w, b, env)
    case Some(PaymentRefunded) => SeatReleaseStep(w, b, env)
    case Some(SeatsReleased) => CompleteStep(w, b, env)
    case Some(Completed) => (w, Returns)
    case Some(Failed) => (Caught(w, b, w.bookings[b], env.recorded), Throws)
    case None => (Caught(w, b, w.bookings[b], env.recorded), Throws)
  }

  const MAX_STEPS := 5
  const MAX_RETRIES := 5

  function RunMachine(w: World, b: nat, env: DriveEnv, steps: nat): (w': World)
    requires b < |w.bookings|
    ensures |w'.bookings| == |w.bookings|
    ensures forall j :: 0 <= j < |w.bookings| && j != b ==> w'.bookings[j] == w.bookings[j]
    decreases steps, |w.bookings|
  {
    if steps == 0 then w else
      var (w', verdict) := MachineStep(w, b, env);
      if verdict == Continues then RunMachine(w', b, env, steps - 1) else w'
  }

  /** One call of `processRefundStateMachine`. */
  function Drive(w: World, b: nat, env: DriveEnv): World
    requires b < |w.bookings|
  {
    RunMachine(w, b, env, MAX_STEPS)
  }

  predicate Unfinished(r: Option<RefundState>) {
    r == Some(RefundInitiated) || r == Some(PaymentRefunded) || r == Some(SeatsReleased)
  }

  /** One tick of the recovery worker, for one booking. */
  function RecoverOne(w: World, b: nat, env: DriveEnv): World
    requires b < |w.bookings|
  {
    if Unfinished(w.bookings[b].refund) && w.bookings[b].retries < MAX_RETRIES then Drive(w, b, env) else w
  }

  /** What `cancelBooking` writes before it drives the state machine: the key of the first call counts. */
  function InitiateRefund(w: World, b: nat, key: Id): World
    requires b < |w.bookings|
  {
    var row := w.bookings[b];
    if row.refund.None? then SetBooking(w, b, row.(refund := Some(RefundInitiated), refundKey := Some(key))) else w
  }

  /** How a drive ends: with a return, or with the exception of the step it stopped at. */
  function DriveVerdict(w: World, b: nat, env: DriveEnv, steps: nat): Verdict
    requires b < |w.bookings|
    decreases steps, |w.bookings|
  {
    if steps == 0 then Returns else
      var (w', verdict) := MachineStep(w, b, env);
      if verdict == Continues then DriveVerdict(w', b, env, steps - 1) else verdict
  }

  datatype CancelResult = BookingNotFound | NotOwner | NotConfirmed | Driven(verdict: Verdict)

  // ----- creating a booking

  function Price(rows: map<SeatKey, Row>, e: Id, s: Id): int {
    if SeatKey(e, s) in rows then rows[SeatKey(e, s)].detail.price else 0
  }

  function ItemsFor(rows: map<SeatKey, Row>, e: Id, ids: seq<Id>): (items: seq<Item>)
    ensures |items| == |ids|
    ensures forall i :: 0 <= i < |ids| ==> items[i] == Item(ids[i], Price(rows, e, ids[i]))
  {
    seq(|ids|, i requires 0 <= i < |ids| => Item(ids[i], Price(rows, e, ids[i])))
  }

  function ItemTotal(items: seq<Item>): int {
    Sum(items, (it: Item) => it.price)
  }

  /** The requested seats are distinct, all in the inventory and HELD, and this user's locks are live.
      A booking without seats has no currency, so that persisting it throws. */
  predicate Bookable(st: Store, u: Id, e: Id, ids: seq<Id>) {
    && ids != [] && Distinct(ids)
    && (forall s :: s in ids ==> SeatKey(e, s) in st.rows && st.rows[SeatKey(e, s)].status == Held)
    && VerifyHold(st, e, ids, u)
  }

  function NewBooking(st: Store, u: Id, e: Id, ids: seq<Id>): Booking {
    var items := ItemsFor(st.rows, e, ids);
    Booking(u, e, items, ItemTotal(items), PendingBooking, None, None, 0)
  }

  function Persist(w: World, u: Id, e: Id, ids: seq<Id>): World {
    w.(bookings := w.bookings + [NewBooking(w.seats, u, e, ids)])
  }

  /** The confirm transaction, when it commits. */
  function Confirm(w: World, b: nat): World
    requires b < |w.bookings|
  {
    SetBooking(w, b, w.bookings[b].(status := Confirmed))
    .(outbox := w.outbox + [OutboxRow(MarkSold, b), OutboxRow(BookingConfirmed, b)])
  }

  function CancelRow(w: World, b: nat): World
    requires b < |w.bookings|
  {
    SetBooking(w, b, w.bookings[b].(status := CancelledBooking))
  }

  /** What becomes of the cancellation after a payment that did not succeed: the save in the try block, the
      seat release call (how far it gets on the server, and whether its answer comes back, which is not
      looked at), and the save in the catch block. */
  datatype Cancelling = Cancelling(firstSave: bool, release: Reach, answered: bool, catchSave: bool)

  /** What the world does to one `createBooking`: the payment provider and the gateway, and whether the
      transactions commit and the saves succeed. */
  datatype CreateEnv = CreateEnv(
    providerKnown: bool,
    answer: Payments.Answer,
    persists: bool,
    commits: bool,
    cancelling: Cancelling)

  datatype PaymentOutcome = PaidOk | NotPaid | PaymentThrew

  function OutcomeOf(c: Payments.Charged): PaymentOutcome {
    if c.row.None? then PaymentThrew
    else if c.row.value < |c.db.payments| && c.db.payments[c.row.value].status == Payments.Succeeded then PaidOk
    else NotPaid
  }

  /** The catch block of `createBooking`. */
  function CatchCancel(w: World, b: nat, saves: bool): World
    requires b < |w.bookings|
  {
    if saves then CancelRow(w, b) else w
  }

  /** After the payment call: confirm, or cancel and give the seats back, or cancel on an error.  An error
      while cancelling leads to the catch block, which does not give the seats back. */
  function Settle(w: World, b: nat, outcome: PaymentOutcome, commits: bool, c: Cancelling): World
    requires b < |w.bookings|
  {
    match outcome
    case PaidOk => if commits then Confirm(w, b) else CatchCancel(w, b, c.catchSave)
    case NotPaid =>
      var row := w.bookings[b];
      if !c.firstSave then CatchCancel(w, b, c.catchSave)
      else
        var seats := ReleaseUpTo(w.seats, row.event, SeatsOf(row), row.user, PaymentFailed, c.release);
        CancelRow(w, b).(seats := seats)
    case PaymentThrew => CatchCancel(w, b, c.catchSave)
  }

  /** Whether `createBooking` throws after the booking was persisted. */
  predicate SettleThrows(outcome: PaymentOutcome, commits: bool, c: Cancelling) {
    match outcome
    case PaidOk => !commits
    case NotPaid => !c.firstSave || !c.answered
    case PaymentThrew => true
  }

  function CreateBooking(w: World, u: Id, e: Id, ids: seq<Id>, key: Id, env: CreateEnv): World {
    if !Bookable(w.seats, u, e, ids) || !env.persists then w
    else
      var w1 := Persist(w, u, e, ids);
      var b := |w.bookings|;
      var charged := Payments.Charge(w1.pay, b, key, w1.bookings[b].total, env.providerKnown, env.answer);
      Settle(w1.(pay := charged.db), b, OutcomeOf(charged), env.commits, env.cancelling)
  }
}
