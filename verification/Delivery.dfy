/** Outbox entries are delivered at least once; what they leave behind is as if each had been delivered
    exactly once. */
module Delivery {
  import opened Basics
  import opened SeatStore
  import opened BookingSaga
  import Tickets
  import BookingService

  /** What the handlers of the outbox worker write: the seat stores, and the tickets with the next
      fresh ticket code. */
  datatype Effects = Effects(seats: Store, tickets: seq<Tickets.Ticket>, next: nat)

  /** One successful handler run for an entry of one of the bookings `bs`; `booking.refunded` only emits
      an event. */
  function Deliver(x: Effects, bs: seq<Booking>, d: OutboxRow): Effects
    requires d.booking < |bs|
  {
    var row := bs[d.booking];
    match d.kind
    case MarkSold => x.(seats := MarkAsSold(x.seats, row.event, SeatsOf(row), row.user))
    case BookingConfirmed =>
      var ts := Tickets.Generate(x.tickets, d.booking, SeatsOf(row), x.next);
      x.(tickets := ts, next := x.next + |ts| - |x.tickets|)
    case BookingRefunded => x
  }

  /** Whether a handler run throws, and if so, before or after it had its effect. */
  datatype Throw = Never | BeforeEffect | AfterEffect

  predicate Deliverable(bs: seq<Booking>, ds: seq<OutboxRow>) {
    forall i :: 0 <= i < |ds| ==> ds[i].booking < |bs|
  }

  function DeliverAll(x: Effects, bs: seq<Booking>, ds: seq<OutboxRow>): Effects
    requires Deliverable(bs, ds)
  {
    if ds == [] then x else Deliver(DeliverAll(x, bs, ds[..|ds| - 1]), bs, ds[|ds| - 1])
  }

  class OutboxHandlers {
    const orchestrator: BookingService.Orchestrator

    constructor (orchestrator: BookingService.Orchestrator)
      ensures this.orchestrator == orchestrator
    {
      this.orchestrator := orchestrator;
    }

    function Now(): Effects
      reads orchestrator, orchestrator.inventory, orchestrator.ticket
    {
      Effects(orchestrator.inventory.St(), orchestrator.ticket.tickets, orchestrator.ticket.next)
    }

    /** The switch of `processEntry`. */
    method ProcessEntry(d: OutboxRow, throws: Throw) returns (ok: bool)
      requires d.booking < |orchestrator.bookings|
      modifies orchestrator.inventory, orchestrator.ticket
      ensures ok == throws.Never?
      ensures Now() == if throws.BeforeEffect? then old(Now()) else Deliver(old(Now()), orchestrator.bookings, d)
    {
      if throws == BeforeEffect {
        return false;
      }
      var row := orchestrator.bookings[d.booking];
      match d.kind {
        case MarkSold => orchestrator.inventory.MarkAsSold(row.event, SeatsOf(row), row.user);
        case BookingConfirmed => orchestrator.ticket.GenerateTicket(d.booking, SeatsOf(row));
        case BookingRefunded =>
      }
      return throws == Never;
    }
  }

  // ----- handler runs and deliveries

  /** A handler run for an entry. */
  datatype Attempt = Attempt(entry: OutboxRow, throws: Throw)

  predicate Runnable(bs: seq<Booking>, runs: seq<Attempt>) {
    forall i :: 0 <= i < |runs| ==> runs[i].entry.booking < |bs|
  }

  function Attempts(x: Effects, bs: seq<Booking>, runs: seq<Attempt>): Effects
    requires Runnable(bs, runs)
  {
    if runs == [] then x else
      var n := |runs| - 1;
      var y := Attempts(x, bs, runs[..n]);
      if runs[n].throws.BeforeEffect? then y else Deliver(y, bs, runs[n].entry)
  }

  /** The entries whose handler runs took effect. */
  function Delivered(runs: seq<Attempt>): (ds: seq<OutboxRow>)
    ensures forall d :: d in ds <==> exists i :: 0 <= i < |runs| && runs[i].entry == d && !runs[i].throws.BeforeEffect?
  {
    if runs == [] then [] else
      var n := |runs| - 1;
      assert runs == runs[..n] + [runs[n]];
      Delivered(runs[..n]) + if runs[n].throws.BeforeEffect? then [] else [runs[n].entry]
  }

  lemma {:induction false} AttemptsDeliver(x: Effects, bs: seq<Booking>, runs: seq<Attempt>)
    requires Runnable(bs, runs)
    ensures Deliverable(bs, Delivered(runs)) && Attempts(x, bs, runs) == DeliverAll(x, bs, Delivered(runs))
  {
    hide Deliver;
    if runs != [] {
      var n := |runs| - 1;
      AttemptsDeliver(x, bs, runs[..n]);
      if !runs[n].throws.BeforeEffect? {
        assert Delivered(runs) == Delivered(runs[..n]) + [runs[n].entry];
        assert Delivered(runs)[..|Delivered(runs)| - 1] == Delivered(runs[..n]);
      } else {
        assert Delivered(runs) == Delivered(runs[..n]);
      }
    }
  }

  // ----- seats: selling is a join, so order and repetition do not matter

  /** A seat sold to a user. */
  type Sale = (SeatKey, Id)

  function SalesOf(bs: seq<Booking>, d: OutboxRow): set<Sale>
    requires d.booking < |bs|
  {
    var row := bs[d.booking];
    if d.kind == MarkSold then set k | k in Keys(row.event, SeatsOf(row)) :: (k, row.user) else {}
  }

  function SoldKeys(sales: set<Sale>): set<SeatKey> {
    set s | s in sales :: s.0
  }

  function CloseSold(h: Hold, sales: set<Sale>): Hold {
    if h.released.None? && (h.key, h.user) in sales then h.(released := Some(PaymentSuccess)) else h
  }

  function CloseAllSold(hs: seq<Hold>, sales: set<Sale>): (r: seq<Hold>)
    ensures |r| == |hs| && forall i :: 0 <= i < |hs| ==> r[i] == CloseSold(hs[i], sales)
  {
    seq(|hs|, i requires 0 <= i < |hs| => CloseSold(hs[i], sales))
  }

  function DropSold(locks: map<SeatKey, Lock>, sales: set<Sale>): map<SeatKey, Lock> {
    map k | k in locks && (k, locks[k].user) !in sales :: locks[k]
  }

  /** The stores after a set of sales. */
  function Sell(st: Store, sales: set<Sale>): Store {
    st.(rows := Restatus(st.rows, SoldKeys(sales), Sold),
        holds := CloseAllSold(st.holds, sales),
        locks := DropSold(st.locks, sales),
        avail := PutAvail(st.avail, SoldKeys(sales), Sold))
  }

  lemma SellMore(st: Store, sales: set<Sale>, e: Id, ids: seq<Id>, u: Id)
    ensures MarkAsSold(Sell(st, sales), e, ids, u) == Sell(st, sales + set k | k in Keys(e, ids) :: (k, u))
  {
    var more := set k | k in Keys(e, ids) :: (k, u);
    assert forall k, v :: (k, v) in more <==> k in Keys(e, ids) && v == u;
    assert SoldKeys(sales + more) == SoldKeys(sales) + Keys(e, ids) by {
      forall k | k in Keys(e, ids) ensures k in SoldKeys(sales + more) { assert (k, u) in sales + more; }
      forall k | k in SoldKeys(sales) ensures k in SoldKeys(sales + more) {
        var s :| s in sales && s.0 == k;
        assert s in sales + more;
      }
    }
    SellMoreParts(st, sales, more, e, ids, u);
  }

  lemma SellMoreHolds(hs: seq<Hold>, sales: set<Sale>, more: set<Sale>, ks: set<SeatKey>, u: Id)
    requires forall k, v :: (k, v) in more <==> k in ks && v == u
    ensures CloseHolds(CloseAllSold(hs, sales), ks, u, PaymentSuccess) == CloseAllSold(hs, sales + more)
  {
  }

  lemma SellMoreLocks(locks: map<SeatKey, Lock>, sales: set<Sale>, more: set<Sale>, ks: set<SeatKey>, u: Id)
    requires forall k, v :: (k, v) in more <==> k in ks && v == u
    ensures DropLocks(DropSold(locks, sales), ks, u) == DropSold(locks, sales + more)
  {
  }

  lemma SellTwice(rows: map<SeatKey, Row>, avail: map<SeatKey, Status>, ks: set<SeatKey>, more: set<SeatKey>)
    ensures Restatus(Restatus(rows, ks, Sold), more, Sold) == Restatus(rows, ks + more, Sold)
    ensures PutAvail(PutAvail(avail, ks, Sold), more, Sold) == PutAvail(avail, ks + more, Sold)
  {
  }

  lemma SellMoreParts(st: Store, sales: set<Sale>, more: set<Sale>, e: Id, ids: seq<Id>, u: Id)
    requires SoldKeys(sales + more) == SoldKeys(sales) + Keys(e, ids)
    requires forall k, v :: (k, v) in more <==> k in Keys(e, ids) && v == u
    ensures MarkAsSold(Sell(st, sales), e, ids, u) == Sell(st, sales + more)
  {
    SellMoreHolds(st.holds, sales, more, Keys(e, ids), u);
    SellMoreLocks(st.locks, sales, more, Keys(e, ids), u);
    SellTwice(st.rows, st.avail, SoldKeys(sales), Keys(e, ids));
  }

  function AllSales(bs: seq<Booking>, ds: seq<OutboxRow>): (sales: set<Sale>)
    requires Deliverable(bs, ds)
    ensures forall s :: s in sales <==> exists i :: 0 <= i < |ds| && s in SalesOf(bs, ds[i])
  {
    if ds == [] then {} else
      var n := |ds| - 1;
      assert ds == ds[..n] + [ds[n]];
      AllSales(bs, ds[..n]) + SalesOf(bs, ds[n])
  }

  lemma SellNothing(st: Store)
    ensures Sell(st, {}) == st
  {
    assert Sell(st, {}).rows == st.rows;
    assert Sell(st, {}).holds == st.holds;
  }

  lemma DeliverSells(st: Store, y: Effects, bs: seq<Booking>, d: OutboxRow, sales: set<Sale>)
    requires d.booking < |bs| && y.seats == Sell(st, sales)
    ensures Deliver(y, bs, d).seats == Sell(st, sales + SalesOf(bs, d))
  {
    if d.kind == MarkSold {
      SellMore(st, sales, bs[d.booking].event, SeatsOf(bs[d.booking]), bs[d.booking].user);
    } else {
      assert sales + SalesOf(bs, d) == sales;
    }
  }

  /** The seat stores after any deliveries depend only on the set of sales. */
  lemma {:induction false} DeliveriesSell(x: Effects, bs: seq<Booking>, ds: seq<OutboxRow>)
    requires Deliverable(bs, ds)
    ensures DeliverAll(x, bs, ds).seats == Sell(x.seats, AllSales(bs, ds))
  {
    if ds == [] {
      SellNothing(x.seats);
    } else {
      var n := |ds| - 1;
      DeliveriesSell(x, bs, ds[..n]);
      DeliverSells(x.seats, DeliverAll(x, bs, ds[..n]), bs, ds[n], AllSales(bs, ds[..n]));
    }
  }

  // ----- tickets: the first delivery generates them

  /** A ticket without its generated code. */
  datatype Issued = Issued(item: nat, seat: Id, status: Tickets.TicketStatus)

  function TicketsOf(ts: seq<Tickets.Ticket>, b: nat): seq<Issued> {
    if ts == [] then [] else
      var t := ts[|ts| - 1];
      TicketsOf(ts[..|ts| - 1], b) + if t.booking == b then [Issued(t.item, t.seat, t.status)] else []
  }

  /** One ACTIVE ticket per booking item. */
  function OnePerItem(ids: seq<Id>): (r: seq<Issued>)
    ensures |r| == |ids| && forall i :: 0 <= i < |ids| ==> r[i] == Issued(i, ids[i], Tickets.Active)
  {
    seq(|ids|, i requires 0 <= i < |ids| => Issued(i, ids[i], Tickets.Active))
  }

  lemma {:induction false} TicketsOfAppend(ts: seq<Tickets.Ticket>, more: seq<Tickets.Ticket>, b: nat)
    ensures TicketsOf(ts + more, b) == TicketsOf(ts, b) + TicketsOf(more, b)
  {
    if more == [] {
      assert ts + more == ts;
    } else {
      var n := |more| - 1;
      TicketsOfAppend(ts, more[..n], b);
      assert (ts + more)[..|ts + more| - 1] == ts + more[..n];
    }
  }

  lemma {:induction false} TicketsOfNew(c: nat, ids: seq<Id>, next: nat, b: nat)
    ensures TicketsOf(Tickets.NewTickets(c, ids, next), b) == if b == c then OnePerItem(ids) else []
  {
    if ids != [] {
      var n := |ids| - 1;
      TicketsOfNew(c, ids[..n], next, b);
      assert Tickets.NewTickets(c, ids, next)[..n] == Tickets.NewTickets(c, ids[..n], next);
    }
  }

  lemma {:induction false} HasTicketsIff(ts: seq<Tickets.Ticket>, b: nat)
    ensures Tickets.HasTickets(ts, b) <==> TicketsOf(ts, b) != []
  {
    if ts != [] {
      var n := |ts| - 1;
      HasTicketsIff(ts[..n], b);
      if Tickets.HasTickets(ts, b) {
        var i :| 0 <= i < |ts| && ts[i].booking == b;
        assert i < n ==> ts[..n][i].booking == b;
      }
      if Tickets.HasTickets(ts[..n], b) {
        var i :| 0 <= i < n && ts[..n][i].booking == b;
        assert ts[i].booking == b;
      }
    }
  }

  lemma GenerateFor(ts: seq<Tickets.Ticket>, c: nat, ids: seq<Id>, next: nat, b: nat)
    ensures TicketsOf(Tickets.Generate(ts, c, ids, next), b) ==
            if b == c && TicketsOf(ts, b) == [] then OnePerItem(ids) else TicketsOf(ts, b)
  {
    HasTicketsIff(ts, c);
    TicketsOfAppend(ts, Tickets.NewTickets(c, ids, next), b);
    TicketsOfNew(c, ids, next, b);
  }

  /** What a booking has after its confirmation was delivered, if `confirmed`. */
  function IssuedTo(had: seq<Issued>, row: Booking, confirmed: bool): seq<Issued> {
    if had == [] && confirmed then OnePerItem(SeatsOf(row)) else had
  }

  lemma DeliverIssues(y: Effects, bs: seq<Booking>, d: OutboxRow, b: nat)
    requires d.booking < |bs| && b < |bs|
    ensures TicketsOf(Deliver(y, bs, d).tickets, b)
            == IssuedTo(TicketsOf(y.tickets, b), bs[b], d == OutboxRow(BookingConfirmed, b))
  {
    hide TicketsOf, Tickets.Generate;
    if d.kind == BookingConfirmed {
      GenerateFor(y.tickets, d.booking, SeatsOf(bs[d.booking]), y.next, b);
    }
  }

  /** The tickets of a booking after any deliveries: what it had, or if it had none and its confirmation
      was delivered, one per item. */
  lemma {:induction false} DeliveriesIssue(x: Effects, bs: seq<Booking>, ds: seq<OutboxRow>, b: nat)
    requires Deliverable(bs, ds) && b < |bs|
    ensures TicketsOf(DeliverAll(x, bs, ds).tickets, b) ==
            IssuedTo(TicketsOf(x.tickets, b), bs[b], OutboxRow(BookingConfirmed, b) in ds)
  {
    hide TicketsOf, Deliver, OnePerItem;
    if ds != [] {
      var n := |ds| - 1;
      DeliveriesIssue(x, bs, ds[..n], b);
      DeliverIssues(DeliverAll(x, bs, ds[..n]), bs, ds[n], b);
      assert ds == ds[..n] + [ds[n]];
    }
  }

  /** At-least-once delivery refines exactly-once: delivering the same entries in another order, and any
      of them again any number of times, leaves the same seats, holds, locks and cache, and the same
      tickets up to their codes.  The bookings need not even have disjoint seats. */
  lemma {:induction false} AtLeastOnceIsExactlyOnce(x: Effects, bs: seq<Booking>, once: seq<OutboxRow>,
                                                    often: seq<OutboxRow>)
    requires Deliverable(bs, once) && Deliverable(bs, often) && forall d :: d in once <==> d in often
    ensures DeliverAll(x, bs, often).seats == DeliverAll(x, bs, once).seats
    ensures forall b: nat :: b < |bs| ==>
            TicketsOf(DeliverAll(x, bs, often).tickets, b) == TicketsOf(DeliverAll(x, bs, once).tickets, b)
  {
    DeliveriesSell(x, bs, once);
    DeliveriesSell(x, bs, often);
    SameSales(bs, once, often);
    SameSales(bs, often, once);
    assert AllSales(bs, once) == AllSales(bs, often);
    forall b: nat | b < |bs|
      ensures TicketsOf(DeliverAll(x, bs, often).tickets, b) == TicketsOf(DeliverAll(x, bs, once).tickets, b)
    {
      DeliveriesIssue(x, bs, once, b);
      DeliveriesIssue(x, bs, often, b);
    }
  }

  /** With handler runs that may throw before or after their effect: when every entry had at least one run
      that took effect, the outcome is that of one delivery each. */
  lemma {:induction false} AttemptsAreExactlyOnce(x: Effects, bs: seq<Booking>, once: seq<OutboxRow>,
                                                  runs: seq<Attempt>)
    requires Deliverable(bs, once) && Runnable(bs, runs)
    requires forall i :: 0 <= i < |runs| ==> runs[i].entry in once
    requires forall d :: d in once ==>
             exists i :: 0 <= i < |runs| && runs[i].entry == d && !runs[i].throws.BeforeEffect?
    ensures Attempts(x, bs, runs).seats == DeliverAll(x, bs, once).seats
    ensures forall b: nat :: b < |bs| ==>
            TicketsOf(Attempts(x, bs, runs).tickets, b) == TicketsOf(DeliverAll(x, bs, once).tickets, b)
  {
    hide DeliverAll, Attempts, TicketsOf;
    AttemptsDeliver(x, bs, runs);
    AtLeastOnceIsExactlyOnce(x, bs, once, Delivered(runs));
  }

  lemma SameSales(bs: seq<Booking>, xs: seq<OutboxRow>, ys: seq<OutboxRow>)
    requires Deliverable(bs, xs) && Deliverable(bs, ys) && forall d :: d in xs ==> d in ys
    ensures AllSales(bs, xs) <= AllSales(bs, ys)
  {
    forall s | s in AllSales(bs, xs) ensures s in AllSales(bs, ys) {
      var i :| 0 <= i < |xs| && s in SalesOf(bs, xs[i]);
      assert xs[i] in ys;
      var j :| 0 <= j < |ys| && ys[j] == xs[i];
      assert s in SalesOf(bs, ys[j]);
    }
  }

  // ----- deliveries that come too late

  predicate HasActive(ts: seq<Tickets.Ticket>, b: nat) {
    exists i :: 0 <= i < |ts| && ts[i].booking == b && ts[i].status == Tickets.Active
  }

  /** Ticket generation does not look at the booking's status: a confirmation delivered after a refund
      cancelled the tickets leaves ACTIVE tickets exactly when there had been none to cancel. */
  lemma {:induction false} LateConfirmationIssuesIff(ts: seq<Tickets.Ticket>, b: nat, ids: seq<Id>, next: nat)
    ensures HasActive(Tickets.Generate(Tickets.CancelAll(ts, b), b, ids, next), b)
            <==> !Tickets.HasTickets(ts, b) && ids != []
  {
    var cancelled := Tickets.CancelAll(ts, b);
    var late := Tickets.Generate(cancelled, b, ids, next);
    if Tickets.HasTickets(ts, b) {
      var i :| 0 <= i < |ts| && ts[i].booking == b;
      assert cancelled[i].booking == b;
    } else if ids != [] {
      assert forall i :: 0 <= i < |ts| ==> cancelled[i].booking == ts[i].booking;
      assert late[|ts|].booking == b && late[|ts|].status == Tickets.Active;
    }
  }
}
