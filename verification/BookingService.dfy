/** The booking orchestrator and the refund recovery worker as imperative services over the seat
    inventory, the payment service and the ticket service.  Each method is proved equal to an operation
    of BookingSaga. */
module BookingService {
  import opened Basics
  import opened SeatStore
  import opened BookingSaga
  import Payments
  import Tickets
  import HoldService
  import BookingOutcome
  import RefundResume

  // ----- seat selection

  function KeyPrice(rows: map<SeatKey, Row>, k: SeatKey): int {
    if k in rows then rows[k].detail.price else 0
  }

  function KeyList(e: Id, ids: seq<Id>): (ks: seq<SeatKey>)
    ensures |ks| == |ids| && forall i :: 0 <= i < |ids| ==> ks[i] == SeatKey(e, ids[i])
  {
    seq(|ids|, i requires 0 <= i < |ids| => SeatKey(e, ids[i]))
  }

  lemma {:induction false} KeysCount(e: Id, ids: seq<Id>)
    ensures |Keys(e, ids)| <= |ids|
    ensures |Keys(e, ids)| == |ids| <==> Distinct(ids)
  {
    if ids == [] {
      assert Keys(e, ids) == {};
    } else {
      var n := |ids| - 1;
      KeysCount(e, ids[..n]);
      assert ids == ids[..n] + [ids[n]];
      assert Keys(e, ids) == Keys(e, ids[..n]) + {SeatKey(e, ids[n])};
      if ids[n] in ids[..n] {
        var i :| 0 <= i < n && ids[..n][i] == ids[n];
        assert ids[i] == ids[n];
        assert Keys(e, ids) == Keys(e, ids[..n]);
      } else {
        assert forall i :: 0 <= i < n ==> ids[i] in ids[..n];
        assert Distinct(ids) <==> Distinct(ids[..n]);
      }
    }
  }

  lemma SubsetCount<T>(small: set<T>, large: set<T>)
    requires small <= large
    ensures |small| <= |large|
    ensures |small| == |large| <==> small == large
  {
    assert large == small + (large - small);
    assert |large| == |small| + |large - small|;
    if small != large {
      var x :| x in large && x !in small;
      assert x in large - small;
    }
  }

  /** The rows of the event whose seat is among the requested ones, once each. */
  ghost predicate Selects(selected: seq<SeatKey>, rows: map<SeatKey, Row>, e: Id, ids: seq<Id>) {
    Distinct(selected) && forall k :: k in selected <==> k in rows && k in Keys(e, ids)
  }

  /** The length test of `createBooking` is a pigeonhole: it passes exactly when the requested seats are
      pairwise distinct and all in the inventory. */
  lemma {:induction false} LengthTestIff(selected: seq<SeatKey>, rows: map<SeatKey, Row>, e: Id, ids: seq<Id>)
    requires Selects(selected, rows, e, ids)
    ensures |selected| == |ids| <==> Distinct(ids) && Keys(e, ids) <= rows.Keys
  {
    DistinctCount(selected, rows.Keys * Keys(e, ids));
    SubsetCount(rows.Keys * Keys(e, ids), Keys(e, ids));
    KeysCount(e, ids);
  }

  lemma {:induction false} SumRemove<T>(xs: seq<T>, i: nat, f: T -> int)
    requires i < |xs|
    ensures Sum(xs[..i] + xs[i + 1..], f) == Sum(xs, f) - f(xs[i])
  {
    var n := |xs| - 1;
    if i < n {
      SumRemove(xs[..n], i, f);
      assert xs[..n][..i] == xs[..i];
      assert xs[..i] + xs[i + 1..] == (xs[..n][..i] + xs[..n][i + 1..]) + [xs[n]];
      SumSnoc(xs[..n][..i] + xs[..n][i + 1..], xs[n], f);
    } else {
      assert xs[..i] + xs[i + 1..] == xs[..n];
    }
  }

  /** A sum over distinct members does not depend on their order. */
  lemma {:induction false} SumReordered<T>(xs: seq<T>, ys: seq<T>, f: T -> int)
    requires Distinct(xs) && Distinct(ys) && forall x :: x in xs <==> x in ys
    ensures Sum(xs, f) == Sum(ys, f)
  {
    DistinctCount(xs, set x | x in xs);
    DistinctCount(ys, set x | x in xs);
    if xs != [] {
      var n := |xs| - 1;
      assert xs[n] in ys;
      var i :| 0 <= i < |ys| && ys[i] == xs[n];
      var rest := ys[..i] + ys[i + 1..];
      SumRemove(ys, i, f);
      RemovedMembers(ys, i);
      RemovedMembers(xs, n);
      assert xs[..n] + xs[n + 1..] == xs[..n];
      forall x ensures x in xs[..n] <==> x in rest {
        assert x in xs[..n] <==> x in xs && x != xs[n];
        assert x in rest <==> x in ys && x != ys[i];
      }
      SumReordered(xs[..n], rest, f);
    }
  }

  lemma RemovedMembers<T>(ys: seq<T>, i: nat)
    requires Distinct(ys) && i < |ys|
    ensures Distinct(ys[..i] + ys[i + 1..])
    ensures forall y :: y in ys[..i] + ys[i + 1..] <==> y in ys && y != ys[i]
  {
    var rest := ys[..i] + ys[i + 1..];
    forall y ensures y in rest <==> y in ys && y != ys[i] {
      if y in ys && y != ys[i] {
        var j :| 0 <= j < |ys| && ys[j] == y;
        assert rest[if j < i then j else j - 1] == y;
      }
    }
  }

  lemma {:induction false} ItemTotalByKey(rows: map<SeatKey, Row>, e: Id, ids: seq<Id>)
    ensures ItemTotal(ItemsFor(rows, e, ids)) == Sum(KeyList(e, ids), k => KeyPrice(rows, k))
  {
    if ids != [] {
      var n := |ids| - 1;
      ItemTotalByKey(rows, e, ids[..n]);
      assert ItemsFor(rows, e, ids)[..n] == ItemsFor(rows, e, ids[..n]);
      assert KeyList(e, ids)[..n] == KeyList(e, ids[..n]);
    }
  }

  /** The total, added up in inventory order, is the sum of the item prices, listed in request order. */
  lemma {:induction false} TotalIsSumOfItems(selected: seq<SeatKey>, rows: map<SeatKey, Row>, e: Id, ids: seq<Id>)
    requires Selects(selected, rows, e, ids) && |selected| == |ids|
    ensures Sum(selected, k => KeyPrice(rows, k)) == ItemTotal(ItemsFor(rows, e, ids))
  {
    LengthTestIff(selected, rows, e, ids);
    var ks := KeyList(e, ids);
    forall k | k in selected ensures k in ks {
      var i :| 0 <= i < |ids| && SeatKey(e, ids[i]) == k;
      assert ks[i] == k;
    }
    forall k | k in ks ensures k in selected {
      var i :| 0 <= i < |ks| && ks[i] == k;
      assert ids[i] in ids;
    }
    SumReordered(selected, ks, k => KeyPrice(rows, k));
    ItemTotalByKey(rows, e, ids);
  }

  // ----- the orchestrator

  datatype CreateResult =
    | SeatsNotFound(missing: seq<Id>)
    | SeatsNotHeld(notHeld: seq<Id>)
    | NotVerified
    | NotPersisted
    | PaymentError(b: nat)
    | Created(b: nat)

  predicate AllFound(st: Store, e: Id, ids: seq<Id>) {
    Distinct(ids) && Keys(e, ids) <= st.rows.Keys
  }

  predicate AllHeld(st: Store, e: Id, ids: seq<Id>) {
    forall s :: s in ids ==> SeatKey(e, s) in st.rows && st.rows[SeatKey(e, s)].status == Held
  }

  /** Why a request was refused before anything was written: the first check that failed, and the seats at
      fault. */
  ghost predicate Refuses(r: CreateResult, st: Store, u: Id, e: Id, ids: seq<Id>) {
    && (r.SeatsNotFound? <==> !AllFound(st, e, ids))
    && (r.SeatsNotHeld? <==> AllFound(st, e, ids) && !AllHeld(st, e, ids))
    && (r.NotVerified? <==> AllFound(st, e, ids) && AllHeld(st, e, ids) && !VerifyHold(st, e, ids, u))
    && (r.SeatsNotFound? ==> forall s :: s in r.missing <==> s in ids && SeatKey(e, s) !in st.rows)
    && (r.SeatsNotHeld? ==>
         forall s :: s in r.notHeld <==> s in ids && SeatKey(e, s) in st.rows && st.rows[SeatKey(e, s)].status != Held)
  }

  /** How far a refund state is from the start of the machine. */
  function StepsDone(r: Option<RefundState>): nat {
    match r
    case Some(PaymentRefunded) => 1
    case Some(SeatsReleased) => 2
    case Some(Completed) => 3
    case _ => 0
  }

  lemma StepMoves(w: World, b: nat, env: DriveEnv)
    requires b < |w.bookings|
    ensures var (w', verdict) := MachineStep(w, b, env);
            && (verdict == Continues ==> StepsDone(w'.bookings[b].refund) == StepsDone(w.bookings[b].refund) + 1)
            && (verdict == Returns ==> w'.bookings[b].refund == Some(Completed))
  {
    hide Payments.GiveBack, Payments.RefundSucceeded, ReleaseSoldSeats, Tickets.CancelAll;
  }

  /** An iteration that continues moves on by one state, one that returns has reached the last. */
  lemma StepAdvances(w: World, b: nat, env: DriveEnv, n: nat)
    requires b < |w.bookings| && n > 0
    ensures var (w', verdict) := MachineStep(w, b, env);
            && RunMachine(w, b, env, n)
               == (if verdict == Continues then RunMachine(w', b, env, n - 1) else w')
            && DriveVerdict(w, b, env, n)
               == (if verdict == Continues then DriveVerdict(w', b, env, n - 1) else verdict)
            && (verdict == Continues ==> StepsDone(w'.bookings[b].refund) == StepsDone(w.bookings[b].refund) + 1)
            && (verdict == Returns ==> w'.bookings[b].refund == Some(Completed))
  {
    hide MachineStep;
    StepMoves(w, b, env);
  }

  class Orchestrator {
    const inventory: HoldService.SeatInventory
    const payment: Payments.PaymentService
    const ticket: Tickets.TicketService
    var bookings: seq<Booking>
    var outbox: seq<OutboxRow>

    constructor (inventory: HoldService.SeatInventory, payment: Payments.PaymentService, ticket: Tickets.TicketService)
      ensures this.inventory == inventory && this.payment == payment && this.ticket == ticket
      ensures bookings == [] && outbox == []
    {
      this.inventory, this.payment, this.ticket := inventory, payment, ticket;
      bookings, outbox := [], [];
    }

    function W(): World
      reads this, inventory, payment, ticket
    {
      World(bookings, outbox, ticket.tickets, payment.D(), inventory.St())
    }

    /** The filter over the seats of the event. */
    method Select(e: Id, ids: seq<Id>) returns (selected: seq<SeatKey>)
      ensures Selects(selected, inventory.rows, e, ids)
    {
      var response := inventory.FindByEventId(e);
      selected := [];
      for i := 0 to |response|
        invariant Distinct(selected)
        invariant forall k :: k in selected <==> k in response[..i] && k.seat in ids
      {
        assert response[..i + 1] == response[..i] + [response[i]];
        if response[i].seat in ids {
          selected := selected + [response[i]];
        }
      }
      assert response[..|response|] == response;
    }

    method Missing(e: Id, ids: seq<Id>, selected: seq<SeatKey>) returns (missing: seq<Id>)
      requires Selects(selected, inventory.rows, e, ids)
      ensures forall s :: s in missing <==> s in ids && SeatKey(e, s) !in inventory.rows
    {
      missing := [];
      for i := 0 to |ids|
        invariant forall s :: s in missing <==> s in ids[..i] && SeatKey(e, s) !in inventory.rows
      {
        assert ids[..i + 1] == ids[..i] + [ids[i]];
        if SeatKey(e, ids[i]) !in selected {
          missing := missing + [ids[i]];
        }
      }
      assert ids[..|ids|] == ids;
    }

    method NotHeld(e: Id, ids: seq<Id>, selected: seq<SeatKey>) returns (notHeld: seq<Id>)
      requires Selects(selected, inventory.rows, e, ids)
      ensures forall s ::
                s in notHeld <==>
                s in ids && SeatKey(e, s) in inventory.rows && inventory.rows[SeatKey(e, s)].status != Held
    {
      notHeld := [];
      for i := 0 to |selected|
        invariant forall s ::
                    s in notHeld <==> SeatKey(e, s) in selected[..i] && inventory.rows[SeatKey(e, s)].status != Held
      {
        assert selected[i] in selected;
        assert selected[..i + 1] == selected[..i] + [selected[i]];
        if inventory.rows[selected[i]].status != Held {
          notHeld := notHeld + [selected[i].seat];
        }
      }
      assert selected[..|selected|] == selected;
    }

    method Total(selected: seq<SeatKey>) returns (total: int)
      ensures var rows := inventory.rows; total == Sum(selected, k => KeyPrice(rows, k))
    {
      total := 0;
      var rows := inventory.rows;
      for i := 0 to |selected|
        invariant total == Sum(selected[..i], k => KeyPrice(rows, k))
      {
        SumSnoc(selected[..i], selected[i], k => KeyPrice(rows, k));
        assert selected[..i + 1] == selected[..i] + [selected[i]];
        total := total + KeyPrice(rows, selected[i]);
      }
      assert selected[..|selected|] == selected;
    }

    /** One transaction for the booking and its items, the items in request order: an item that was not
        selected, or a commit that fails, rolls all of it back. */
    method PersistBooking(u: Id, e: Id, ids: seq<Id>, selected: seq<SeatKey>, total: int, commits: bool)
      returns (b: Option<nat>)
      requires Selects(selected, inventory.rows, e, ids)
      modifies this`bookings
      ensures b == (if commits && ids != [] && Keys(e, ids) <= inventory.rows.Keys then Some(|old(bookings)|) else None)
      ensures b.None? ==> bookings == old(bookings)
      ensures b.Some? ==>
              bookings == old(bookings) +
                  [Booking(u, e, ItemsFor(inventory.rows, e, ids), total, PendingBooking, None, None, 0)]
    {
      if |selected| == 0 {
        if ids != [] {
          assert SeatKey(e, ids[0]) in Keys(e, ids) && SeatKey(e, ids[0]) !in selected;
        }
        return None;
      }
      assert selected[0] in selected;
      var items: seq<Item> := [];
      for i := 0 to |ids|
        invariant items == ItemsFor(inventory.rows, e, ids[..i])
        invariant Keys(e, ids[..i]) <= inventory.rows.Keys
      {
        assert ids[..i + 1] == ids[..i] + [ids[i]];
        if SeatKey(e, ids[i]) !in selected {
          assert SeatKey(e, ids[i]) in Keys(e, ids);
          return None;
        }
        items := items + [Item(ids[i], inventory.rows[SeatKey(e, ids[i])].detail.price)];
      }
      assert ids[..|ids|] == ids;
      if !commits {
        return None;
      }
      b := Some(|bookings|);
      bookings := bookings + [Booking(u, e, items, total, PendingBooking, None, None, 0)];
    }

    method Save(b: nat, row: Booking)
      requires b < |bookings|
      modifies this`bookings
      ensures bookings == old(bookings)[b := row]
    {
      bookings := bookings[b := row];
    }

    /** The confirm transaction: the booking and both outbox rows are written to the transaction's copies,
        and become visible at the commit.  A statement or the commit may throw. */
    method ConfirmBookingWithOutbox(b: nat, throwsAt: Option<nat>) returns (confirmed: bool)
      requires b < |bookings|
      modifies this`bookings, this`outbox
      ensures confirmed <==> (throwsAt.Some? ==> throwsAt.value >= 4)
      ensures confirmed ==> W() == Confirm(old(W()), b)
      ensures !confirmed ==> W() == old(W())
    {
      var rows, entries := bookings, outbox;
      if throwsAt == Some(0) {
        return false;
      }
      rows := rows[b := rows[b].(status := Confirmed)];
      if throwsAt == Some(1) {
        return false;
      }
      entries := entries + [OutboxRow(MarkSold, b)];
      if throwsAt == Some(2) {
        return false;
      }
      entries := entries + [OutboxRow(BookingConfirmed, b)];
      if throwsAt == Some(3) {
        return false;
      }
      bookings, outbox := rows, entries;
      return true;
    }

    /** The catch block of `createBooking`. */
    method CancelOnError(b: nat, saves: bool)
      requires b < |bookings|
      modifies this`bookings
      ensures W() == CatchCancel(old(W()), b, saves)
    {
      if saves {
        Save(b, bookings[b].(status := CancelledBooking));
      }
    }

    /** The branch of `createBooking` for a payment that did not succeed; false when it throws. */
    method CancelUnpaid(b: nat, c: Cancelling) returns (done: bool)
      requires b < |bookings|
      modifies this`bookings, inventory
      ensures done == !SettleThrows(NotPaid, false, c) && |bookings| == |old(bookings)|
      ensures done ==> W() == Settle(old(W()), b, NotPaid, false, c)
      ensures !done ==> CatchCancel(W(), b, c.catchSave) == Settle(old(W()), b, NotPaid, false, c)
    {
      var row := bookings[b];
      if !c.firstSave {
        return false;
      }
      Save(b, row.(status := CancelledBooking));
      var _ := inventory.ReleaseSeats(row.event, SeatsOf(row), row.user, PaymentFailed, c.release);
      assert bookings[b := bookings[b].(status := CancelledBooking)] == bookings;
      return c.answered;
    }

    /** The part of `createBooking` after the booking was persisted. */
    method PayAndSettle(b: nat, key: Id, env: CreateEnv) returns (r: CreateResult)
      requires b < |bookings|
      modifies this, inventory, payment
      ensures var charged :=
              Payments.Charge(old(W()).pay, b, key, old(W()).bookings[b].total, env.providerKnown, env.answer);
              && W() == Settle(old(W()).(pay := charged.db), b, OutcomeOf(charged), env.commits, env.cancelling)
              && r == if SettleThrows(OutcomeOf(charged), env.commits, env.cancelling) then PaymentError(b)
                 else Created(b)
    {
      var row := bookings[b];
      var paid := payment.InitiatePayment(b, key, row.total, env.providerKnown, env.answer);
      var done := false;
      if paid.Some? {
        if paid.value < |payment.payments| && payment.payments[paid.value].status == Payments.Succeeded {
          done := ConfirmBookingWithOutbox(b, if env.commits then None else Some(3));
        } else {
          done := CancelUnpaid(b, env.cancelling);
        }
      }
      if !done {
        CancelOnError(b, env.cancelling.catchSave);
        return PaymentError(b);
      }
      return Created(b);
    }

    /** The checks of `createBooking`, in order; nothing is written. */
    method CheckRequest(u: Id, e: Id, ids: seq<Id>) returns (refusal: Option<CreateResult>, selected: seq<SeatKey>)
      ensures refusal.Some? ==>
              Refuses(refusal.value, inventory.St(), u, e, ids) && !Bookable(inventory.St(), u, e, ids)
      ensures refusal.Some? ==>
              refusal.value.SeatsNotFound? || refusal.value.SeatsNotHeld? || refusal.value.NotVerified?
      ensures refusal.None? ==> Selects(selected, inventory.rows, e, ids) && |selected| == |ids|
      ensures refusal.None? ==> Distinct(ids) && Keys(e, ids) <= inventory.rows.Keys
      ensures refusal.None? ==> AllHeld(inventory.St(), e, ids) && VerifyHold(inventory.St(), e, ids, u)
      ensures refusal.None? ==> (Bookable(inventory.St(), u, e, ids) <==> ids != [])
    {
      selected := Select(e, ids);
      LengthTestIff(selected, inventory.rows, e, ids);
      if |selected| != |ids| {
        var missing := Missing(e, ids, selected);
        return Some(SeatsNotFound(missing)), selected;
      }
      assert forall s :: s in ids ==> SeatKey(e, s) in Keys(e, ids);
      var notHeld := NotHeld(e, ids, selected);
      if |notHeld| > 0 {
        assert notHeld[0] in notHeld;
        return Some(SeatsNotHeld(notHeld)), selected;
      }
      var verified := inventory.VerifyHold(e, ids, u);
      if !verified {
        return Some(NotVerified), selected;
      }
      return None, selected;
    }

    method CreateBooking(u: Id, e: Id, ids: seq<Id>, key: Id, env: CreateEnv) returns (r: CreateResult)
      modifies this, inventory, payment
      ensures W() == BookingSaga.CreateBooking(old(W()), u, e, ids, key, env)
      ensures Refuses(r, old(W()).seats, u, e, ids)
      ensures r.Created? || r.PaymentError? <==> BookingOutcome.Accepts(old(W()), u, e, ids, env)
      ensures r.Created? <==>
              (BookingOutcome.Accepts(old(W()), u, e, ids, env) && BookingOutcome.Replies(old(W()), key, env))
      ensures r.Created? || r.PaymentError? ==> r.b == |old(bookings)|
    {
      hide Payments.Charge, Settle, SettleThrows, OutcomeOf, VerifyHold, BookingOutcome.Replies;
      var refusal, selected := CheckRequest(u, e, ids);
      if refusal.Some? {
        return refusal.value;
      }
      var total := Total(selected);
      TotalIsSumOfItems(selected, inventory.rows, e, ids);
      var b := PersistBooking(u, e, ids, selected, total, env.persists);
      if b.None? {
        return NotPersisted;
      }
      BookingOutcome.RepliesIff(old(W()), key, total, env);
      r := PayAndSettle(b.value, key, env);
    }

    // ----- refunds

    /** The transaction of the last state: a row of the booking and an outbox row, or neither. */
    method CompleteRefund(b: nat, row: Booking, commits: bool)
      requires b < |bookings|
      modifies this`bookings, this`outbox
      ensures commits ==> bookings == old(bookings)[b := row] && outbox == old(outbox) + [OutboxRow(BookingRefunded, b)]
      ensures !commits ==> bookings == old(bookings) && outbox == old(outbox)
    {
      if commits {
        Save(b, row);
        outbox := outbox + [OutboxRow(BookingRefunded, b)];
      }
    }

    /** The outer catch: count the retry on the booking in memory and save it, then throw again. */
    method CountRetry(b: nat, row: Booking, recorded: bool)
      requires b < |bookings|
      modifies this`bookings
      ensures W() == Caught(old(W()), b, row, recorded)
    {
      if recorded {
        Save(b, row.(retries := row.retries + 1));
      }
    }

    /** The save after a step; when it throws, the catch saves the booking in memory with the retry counted. */
    method SaveState(b: nat, row: Booking, throws: bool, recorded: bool) returns (verdict: Verdict)
      requires b < |bookings|
      modifies this`bookings
      ensures (W(), verdict) == Saved(old(W()), b, row, throws, recorded)
    {
      if throws {
        CountRetry(b, row, recorded);
        return Throws;
      }
      Save(b, row);
      return Continues;
    }

    /** The refund was refused: FAILED is saved, the exception is counted by the catch. */
    method FailRefund(b: nat, row: Booking, env: DriveEnv)
      requires b < |bookings|
      modifies this`bookings
      ensures var w := if env.fault == SavingReply then old(W()) else SetBooking(old(W()), b, row);
              W() == Caught(w, b, row, env.recorded)
    {
      if env.fault != SavingReply {
        Save(b, row);
      }
      CountRetry(b, row, env.recorded);
    }

    method CallRefund(b: nat, env: DriveEnv) returns (verdict: Verdict)
      requires b < |bookings|
      modifies this, payment
      ensures (W(), verdict) == RefundCallStep(old(W()), b, env)
    {
      hide Payments.GiveBack, Payments.RefundSucceeded;
      var row := bookings[b];
      if env.fault == AtRefund {
        CountRetry(b, row, env.recorded);
        return Throws;
      }
      var success := payment.RefundPayment(b, row.refundKey.GetOr(""), env.answer);
      if !success {
        FailRefund(b, row.(refund := Some(BookingSaga.Failed)), env);
        return Throws;
      }
      row := row.(refund := Some(PaymentRefunded));
      verdict := SaveState(b, row, env.fault == SavingReply, env.recorded);
    }

    method ReleaseSeatsOfRefund(b: nat, env: DriveEnv) returns (verdict: Verdict)
      requires b < |bookings|
      modifies this, inventory
      ensures (W(), verdict) == SeatReleaseStep(old(W()), b, env)
    {
      var row := bookings[b];
      if env.fault == AtSeatRelease {
        CountRetry(b, row, env.recorded);
        return Throws;
      }
      var _ := inventory.ReleaseSoldSeats(row.event, SeatsOf(row), env.release);
      row := row.(refund := Some(SeatsReleased));
      verdict := SaveState(b, row, env.fault == SavingReleased, env.recorded);
    }

    /** The in-memory booking is changed before the transaction commits, and saved by the catch even when
        it was rolled back. */
    method FinishRefund(b: nat, env: DriveEnv) returns (verdict: Verdict)
      requires b < |bookings|
      modifies this, ticket
      ensures (W(), verdict) == CompleteStep(old(W()), b, env)
    {
      var row := bookings[b];
      if env.fault == AtTicketCancel {
        CountRetry(b, row, env.recorded);
        return Throws;
      }
      ticket.CancelByBooking(b);
      row := row.(status := RefundedBooking, refund := Some(Completed));
      CompleteRefund(b, row, env.fault != AtCommit);
      if env.fault == AtCommit {
        CountRetry(b, row, env.recorded);
        return Throws;
      }
      return Returns;
    }

    /** One iteration: the switch on the refund state. */
    method Step(b: nat, env: DriveEnv) returns (verdict: Verdict)
      requires b < |bookings|
      modifies this, inventory, payment, ticket
      ensures (W(), verdict) == MachineStep(old(W()), b, env)
    {
      match bookings[b].refund
      case Some(RefundInitiated) => verdict := CallRefund(b, env);
      case Some(PaymentRefunded) => verdict := ReleaseSeatsOfRefund(b, env);
      case Some(SeatsReleased) => verdict := FinishRefund(b, env);
      case Some(Completed) => return Returns;
      case _ =>
        CountRetry(b, bookings[b], env.recorded);
        return Throws;
    }

    method ProcessRefundStateMachine(b: nat, env: DriveEnv) returns (verdict: Verdict)
      requires b < |bookings|
      modifies this, inventory, payment, ticket
      ensures W() == Drive(old(W()), b, env)
      ensures verdict == DriveVerdict(old(W()), b, env, MAX_STEPS)
      ensures verdict == Throws || (verdict == Returns && bookings[b].refund == Some(Completed))
    {
      hide MachineStep, RunMachine, DriveVerdict;
      ghost var w := W();
      verdict := Continues;
      for step := 0 to MAX_STEPS
        invariant verdict == Continues && b < |bookings|
        invariant RunMachine(w, b, env, MAX_STEPS) == RunMachine(W(), b, env, MAX_STEPS - step)
        invariant DriveVerdict(w, b, env, MAX_STEPS) == DriveVerdict(W(), b, env, MAX_STEPS - step)
        invariant StepsDone(bookings[b].refund) >= step
      {
        StepAdvances(W(), b, env, MAX_STEPS - step);
        verdict := Step(b, env);
        if verdict != Continues {
          return verdict;
        }
      }
    }

    method CancelBooking(b: nat, u: Id, key: Id, env: DriveEnv) returns (r: CancelResult)
      modifies this, inventory, payment, ticket
      ensures r.BookingNotFound? <==> b >= |old(bookings)|
      ensures r.NotOwner? <==> b < |old(bookings)| && old(bookings)[b].user != u
      ensures r.NotConfirmed?
              <==> b < |old(bookings)| && old(bookings)[b].user == u && old(bookings)[b].status != Confirmed
      ensures r.Driven? ==> W() == Drive(InitiateRefund(old(W()), b, key), b, env)
      ensures r.Driven? ==> r.verdict == DriveVerdict(InitiateRefund(old(W()), b, key), b, env, MAX_STEPS)
      ensures !r.Driven? ==> W() == old(W())
    {
      if b >= |bookings| {
        return BookingNotFound;
      }
      var row := bookings[b];
      if row.user != u {
        return NotOwner;
      }
      if row.status != Confirmed {
        return NotConfirmed;
      }
      if row.refund.None? {
        Save(b, row.(refund := Some(RefundInitiated), refundKey := Some(key)));
      }
      var verdict := ProcessRefundStateMachine(b, env);
      return Driven(verdict);
    }
  }

  // ----- the recovery worker

  /** The tick of the worker, booking by booking, for the first n bookings. */
  function RecoverAll(w: World, n: nat, envs: nat -> DriveEnv): (w': World)
    requires n <= |w.bookings|
    ensures |w'.bookings| == |w.bookings|
    ensures forall j :: n <= j < |w.bookings| ==> w'.bookings[j] == w.bookings[j]
  {
    if n == 0 then w else RecoverOne(RecoverAll(w, n - 1, envs), n - 1, envs(n - 1))
  }

  predicate Stuck(w: World, b: nat) {
    b < |w.bookings| && Unfinished(w.bookings[b].refund)
  }

  lemma {:induction false} RecoverAllSkips(w: World, m: nat, n: nat, envs: nat -> DriveEnv)
    requires m <= n <= |w.bookings| && forall b :: m <= b < n ==> !Stuck(w, b)
    ensures RecoverAll(w, n, envs) == RecoverAll(w, m, envs)
  {
    if m < n {
      RecoverAllSkips(w, m, n - 1, envs);
      assert !Stuck(w, n - 1);
    }
  }

  lemma RecoverNone(w: World, envs: nat -> DriveEnv)
    ensures RecoverAll(w, 0, envs) == w
  {
  }

  lemma RecoverNext(w: World, n: nat, envs: nat -> DriveEnv)
    requires n < |w.bookings|
    ensures RecoverAll(w, n + 1, envs) == RecoverOne(RecoverAll(w, n, envs), n, envs(n))
  {
  }

  lemma NextBookingKeeps(w: World, b: nat, n: nat, envs: nat -> DriveEnv)
    requires b < n < |w.bookings|
    ensures RecoverAll(w, n + 1, envs).bookings[b] == RecoverAll(w, n, envs).bookings[b]
  {
  }

  /** What the tick has done for booking b when its turn is over is what it has done in the end. */
  lemma LaterBookingsKeep(w: World, b: nat, n: nat, envs: nat -> DriveEnv)
    requires b < n <= |w.bookings|
    ensures RecoverAll(w, n, envs).bookings[b] == RecoverAll(w, b + 1, envs).bookings[b]
  {
    var m := b + 1;
    while m < n
      invariant b < m <= n
      invariant RecoverAll(w, m, envs).bookings[b] == RecoverAll(w, b + 1, envs).bookings[b]
    {
      NextBookingKeeps(w, b, m, envs);
      m := m + 1;
    }
  }

  /** One tick serves every stuck booking with less than five retries: each is settled, or has spent one. */
  lemma {:induction false} TickSettlesOrCounts(w: World, b: nat, envs: nat -> DriveEnv)
    requires Stuck(w, b) && w.bookings[b].retries < 5
    ensures var w' := RecoverAll(w, |w.bookings|, envs);
            || RefundResume.Settled(w', b)
            || (&& Stuck(w', b) && envs(b).fault != NoFault
                && w'.bookings[b].retries == w.bookings[b].retries + if envs(b).recorded then 1 else 0)
  {
    LaterBookingsKeep(w, b, |w.bookings|, envs);
    RefundResume.DriveSettlesOrCounts(RecoverAll(w, b, envs), b, envs(b));
  }

  /** It leaves every other booking as it was. */
  lemma {:induction false} TickLeavesSpent(w: World, b: nat, envs: nat -> DriveEnv)
    requires b < |w.bookings| && !(Stuck(w, b) && w.bookings[b].retries < 5)
    ensures RecoverAll(w, |w.bookings|, envs).bookings[b] == w.bookings[b]
  {
    LaterBookingsKeep(w, b, |w.bookings|, envs);
  }

  /** `stuck` lists the stuck bookings in order. */
  ghost predicate ListsStuck(w: World, stuck: seq<nat>) {
    && (forall i :: 0 <= i < |stuck| ==> stuck[i] < |w.bookings|)
    && (forall i, j :: 0 <= i < j < |stuck| ==> stuck[i] < stuck[j])
    && (forall b: nat :: b in stuck <==> Stuck(w, b))
  }

  lemma NoneStuckBetween(w: World, stuck: seq<nat>, i: nat, b: nat)
    requires ListsStuck(w, stuck) && i <= |stuck|
    requires i > 0 ==> stuck[i - 1] < b
    requires i < |stuck| ==> b < stuck[i]
    ensures !Stuck(w, b)
  {
    forall j | 0 <= j < |stuck| ensures stuck[j] != b {
      assert i > 0 && j < i - 1 ==> stuck[j] < stuck[i - 1];
      assert i < |stuck| && j > i ==> stuck[i] < stuck[j];
    }
  }

  /** Between two stuck bookings the tick changes nothing. */
  lemma SkipsTo(w: World, stuck: seq<nat>, i: nat, done: nat, b: nat, envs: nat -> DriveEnv)
    requires ListsStuck(w, stuck) && i <= |stuck| && done == if i == 0 then 0 else stuck[i - 1] + 1
    requires b == if i < |stuck| then stuck[i] else |w.bookings|
    ensures done <= b <= |w.bookings| && RecoverAll(w, b, envs) == RecoverAll(w, done, envs)
  {
    forall c | done <= c < b ensures !Stuck(w, c) {
      NoneStuckBetween(w, stuck, i, c);
    }
    RecoverAllSkips(w, done, b, envs);
  }

  class RefundRecoveryWorker {
    const orchestrator: Orchestrator
    var isProcessing: bool

    constructor (orchestrator: Orchestrator)
      ensures this.orchestrator == orchestrator && !isProcessing
    {
      this.orchestrator, isProcessing := orchestrator, false;
    }

    /** The bookings whose refund is in one of the three unfinished states. */
    method FindStuck() returns (stuck: seq<nat>)
      ensures ListsStuck(orchestrator.W(), stuck)
    {
      stuck := [];
      for n := 0 to |orchestrator.bookings|
        invariant forall i :: 0 <= i < |stuck| ==> stuck[i] < n
        invariant forall i, j :: 0 <= i < j < |stuck| ==> stuck[i] < stuck[j]
        invariant forall b: nat :: b in stuck <==> b < n && Stuck(orchestrator.W(), b)
      {
        if Unfinished(orchestrator.bookings[n].refund) {
          stuck := stuck + [n];
        }
      }
    }

    method RecoverBooking(b: nat, env: DriveEnv)
      requires b < |orchestrator.bookings| && Unfinished(orchestrator.bookings[b].refund)
      modifies orchestrator, orchestrator.inventory, orchestrator.payment, orchestrator.ticket
      ensures orchestrator.W() == RecoverOne(old(orchestrator.W()), b, env)
    {
      if orchestrator.bookings[b].retries < MAX_RETRIES {
        var _ := orchestrator.ProcessRefundStateMachine(b, env);
      }
    }

    method RecoverEach(stuck: seq<nat>, envs: nat -> DriveEnv)
      requires ListsStuck(orchestrator.W(), stuck)
      modifies orchestrator, orchestrator.inventory, orchestrator.payment, orchestrator.ticket
      ensures orchestrator.W() == RecoverAll(old(orchestrator.W()), |old(orchestrator.bookings)|, envs)
    {
      hide RecoverAll, RecoverOne;
      ghost var w := orchestrator.W();
      ghost var done := 0;
      RecoverNone(w, envs);
      for i := 0 to |stuck|
        invariant done == if i == 0 then 0 else stuck[i - 1] + 1
        invariant done <= |w.bookings| && orchestrator.W() == RecoverAll(w, done, envs)
      {
        SkipsTo(w, stuck, i, done, stuck[i], envs);
        assert stuck[i] in stuck;
        RecoverNext(w, stuck[i], envs);
        RecoverBooking(stuck[i], envs(stuck[i]));
        done := stuck[i] + 1;
      }
      SkipsTo(w, stuck, |stuck|, done, |w.bookings|, envs);
    }

    /** Guarded against overlapping ticks; a booking whose budget is spent is skipped, and one that throws
        does not stop the others. */
    method RecoverStuckRefunds(envs: nat -> DriveEnv)
      modifies this, orchestrator, orchestrator.inventory, orchestrator.payment, orchestrator.ticket
      ensures isProcessing == old(isProcessing)
      ensures orchestrator.W() ==
              if old(isProcessing) then old(orchestrator.W())
              else RecoverAll(old(orchestrator.W()), |old(orchestrator.bookings)|, envs)
    {
      if isProcessing {
        return;
      }
      isProcessing := true;
      var stuck := FindStuck();
      RecoverEach(stuck, envs);
      isProcessing := false;
    }
  }
}
