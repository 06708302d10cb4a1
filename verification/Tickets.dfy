/** The ticket service: generation once per booking, cancellation, check-in. */
module Tickets {
  import opened Basics

  datatype TicketStatus = Active | Used | Cancelled | Transferred

  /** A ticket of the item at position `item` of its booking; `id` stands for the generated code. */
  datatype Ticket = Ticket(id: nat, booking: nat, item: nat, seat: Id, status: TicketStatus)

  predicate HasTickets(ts: seq<Ticket>, booking: nat) {
    exists i :: 0 <= i < |ts| && ts[i].booking == booking
  }

  /** One ACTIVE ticket per item, with fresh ids from `next` on. */
  function NewTickets(booking: nat, seats: seq<Id>, next: nat): (r: seq<Ticket>)
    ensures |r| == |seats|
    ensures forall i :: 0 <= i < |seats| ==> r[i] == Ticket(next + i, booking, i, seats[i], Active)
  {
    seq(|seats|, i requires 0 <= i < |seats| => Ticket(next + i, booking, i, seats[i], Active))
  }

  function Generate(ts: seq<Ticket>, booking: nat, seats: seq<Id>, next: nat): seq<Ticket> {
    if HasTickets(ts, booking) then ts else ts + NewTickets(booking, seats, next)
  }

  function CancelOne(t: Ticket, booking: nat): Ticket {
    if t.booking == booking && t.status == Active then t.(status := Cancelled) else t
  }

  function CancelAll(ts: seq<Ticket>, booking: nat): (r: seq<Ticket>)
    ensures |r| == |ts| && forall i :: 0 <= i < |ts| ==> r[i] == CancelOne(ts[i], booking)
  {
    seq(|ts|, i requires 0 <= i < |ts| => CancelOne(ts[i], booking))
  }

  datatype CheckInResult = CheckedIn | NotFound | AlreadyUsed | WasCancelled

  function FindTicket(ts: seq<Ticket>, id: nat): (r: nat)
    ensures r <= |ts|
    ensures r < |ts| ==> ts[r].id == id
    ensures r == |ts| ==> forall i :: 0 <= i < |ts| ==> ts[i].id != id
  {
    if ts == [] then 0 else
      var r := FindTicket(ts[..|ts| - 1], id);
      if r < |ts| - 1 then r else if ts[|ts| - 1].id == id then |ts| - 1 else |ts|
  }

  function Entry(ts: seq<Ticket>, id: nat): CheckInResult {
    var i := FindTicket(ts, id);
    if i == |ts| then NotFound
    else if ts[i].status == Used then AlreadyUsed
    else if ts[i].status == Cancelled then WasCancelled
    else CheckedIn
  }

  function Entered(ts: seq<Ticket>, id: nat): seq<Ticket> {
    var i := FindTicket(ts, id);
    if Entry(ts, id) == CheckedIn then ts[i := ts[i].(status := Used)] else ts
  }

  class TicketService {
    var tickets: seq<Ticket>
    var next: nat

    constructor ()
      ensures tickets == [] && next == 0
    {
      tickets, next := [], 0;
    }

    /** Returns the existing tickets of the booking, or creates one per booking item. */
    method GenerateTicket(booking: nat, seats: seq<Id>)
      modifies this
      ensures tickets == Generate(old(tickets), booking, seats, old(next))
      ensures next == old(next) + |tickets| - |old(tickets)|
    {
      if HasTickets(tickets, booking) || |seats| == 0 {
        assert tickets + NewTickets(booking, [], next) == tickets;
        return;
      }
      var created: seq<Ticket> := [];
      for i := 0 to |seats|
        invariant created == NewTickets(booking, seats[..i], next)
      {
        assert seats[..i + 1] == seats[..i] + [seats[i]];
        created := created + [Ticket(next + i, booking, i, seats[i], Active)];
      }
      assert seats[..|seats|] == seats;
      tickets := tickets + created;
      next := next + |seats|;
    }

    method CancelByBooking(booking: nat)
      modifies this`tickets
      ensures tickets == CancelAll(old(tickets), booking)
    {
      var ts := tickets;
      for i := 0 to |ts|
        invariant |ts| == |tickets|
        invariant forall j :: 0 <= j < i ==> ts[j] == CancelOne(tickets[j], booking)
        invariant forall j :: i <= j < |ts| ==> ts[j] == tickets[j]
      {
        if ts[i].booking == booking && ts[i].status == Active {
          ts := ts[i := ts[i].(status := Cancelled)];
        }
      }
      tickets := ts;
    }

    /** Succeeds exactly on a ticket that is neither used nor cancelled, and uses it up. */
    method CheckIn(id: nat) returns (r: CheckInResult)
      modifies this`tickets
      ensures r == Entry(old(tickets), id) && tickets == Entered(old(tickets), id)
    {
      var i := FindTicket(tickets, id);
      if i == |tickets| {
        return NotFound;
      }
      if tickets[i].status == Used {
        return AlreadyUsed;
      }
      if tickets[i].status == Cancelled {
        return WasCancelled;
      }
      tickets := tickets[i := tickets[i].(status := Used)];
      return CheckedIn;
    }
  }

  // ----- any sequence of operations

  datatype Op = GenerateOp(booking: nat, seats: seq<Id>) | CancelOp(booking: nat) | CheckInOp(id: nat)

  datatype Desk = Desk(tickets: seq<Ticket>, next: nat)

  function Apply(d: Desk, op: Op): Desk {
    match op
    case GenerateOp(b, seats) =>
      var ts := Generate(d.tickets, b, seats, d.next);
      Desk(ts, if |ts| > |d.tickets| then d.next + |ts| - |d.tickets| else d.next)
    case CancelOp(b) => d.(tickets := CancelAll(d.tickets, b))
    case CheckInOp(id) => d.(tickets := Entered(d.tickets, id))
  }

  function Run(ops: seq<Op>): Desk {
    if ops == [] then Desk([], 0) else Apply(Run(ops[..|ops| - 1]), ops[|ops| - 1])
  }

  /** How often a check-in of this id succeeded. */
  function CheckIns(ops: seq<Op>, id: nat): nat {
    if ops == [] then 0 else
      var n := |ops| - 1;
      CheckIns(ops[..n], id)
      + if ops[n] == CheckInOp(id) && Entry(Run(ops[..n]).tickets, id) == CheckedIn then 1 else 0
  }

  /** No two tickets have one id, or are for one item of one booking; later ids are free. */
  ghost predicate Unique(d: Desk) {
    && (forall i :: 0 <= i < |d.tickets| ==> d.tickets[i].id < d.next)
    && (forall i, j :: 0 <= i < j < |d.tickets| ==> d.tickets[i].id != d.tickets[j].id)
    && (forall i, j :: 0 <= i < j < |d.tickets| && d.tickets[i].booking == d.tickets[j].booking ==>
          d.tickets[i].item != d.tickets[j].item)
  }

  ghost predicate UsedUp(ts: seq<Ticket>, id: nat) {
    exists i :: 0 <= i < |ts| && ts[i].id == id && ts[i].status == Used
  }

  lemma StepKeepsUnique(d: Desk, op: Op)
    requires Unique(d)
    ensures Unique(Apply(d, op))
  {
    if op.GenerateOp? && !HasTickets(d.tickets, op.booking) {
      assert forall i :: 0 <= i < |d.tickets| ==> d.tickets[i].booking != op.booking;
    }
  }

  /** Whether a ticket is used up changes only by a successful check-in of it. */
  lemma StepUses(d: Desk, op: Op, id: nat)
    requires Unique(d)
    ensures UsedUp(Apply(d, op).tickets, id)
            <==> UsedUp(d.tickets, id) || (op == CheckInOp(id) && Entry(d.tickets, id) == CheckedIn)
    ensures op == CheckInOp(id) && Entry(d.tickets, id) == CheckedIn ==> !UsedUp(d.tickets, id)
  {
    var ts, ts' := d.tickets, Apply(d, op).tickets;
    assert |ts| <= |ts'| && forall i :: 0 <= i < |ts| ==> ts'[i].id == ts[i].id;
    assert forall i :: |ts| <= i < |ts'| ==> ts'[i].status == Active;
    if i :| 0 <= i < |ts| && ts[i].id == id && ts[i].status == Used {
      assert ts'[i].status == Used;
    }
    if op == CheckInOp(id) && Entry(ts, id) == CheckedIn {
      assert ts'[FindTicket(ts, id)].status == Used;
    }
  }

  /** Ids stay unique over every sequence of operations, and a ticket is checked in once at most: once
      exactly when it is used up. */
  lemma {:induction false} CheckedInAtMostOnce(ops: seq<Op>, id: nat)
    ensures Unique(Run(ops))
    ensures CheckIns(ops, id) == if UsedUp(Run(ops).tickets, id) then 1 else 0
  {
    hide Apply, Unique, UsedUp, Entry;
    if ops == [] {
      NothingUsed(id);
    } else {
      var n := |ops| - 1;
      CheckedInAtMostOnce(ops[..n], id);
      StepKeepsUnique(Run(ops[..n]), ops[n]);
      StepUses(Run(ops[..n]), ops[n], id);
    }
  }

  lemma NothingUsed(id: nat)
    ensures Unique(Desk([], 0)) && !UsedUp([], id)
  {
  }

  lemma FinalStays(d: Desk, op: Op, i: nat)
    requires i < |d.tickets| && d.tickets[i].status in {Used, Cancelled}
    ensures i < |Apply(d, op).tickets| && Apply(d, op).tickets[i] == d.tickets[i]
  {
  }

  /** A ticket that is used or cancelled stays so, whatever follows. */
  lemma {:induction false} UsedAndCancelledAreFinal(ops: seq<Op>, more: seq<Op>, i: nat)
    requires i < |Run(ops).tickets| && Run(ops).tickets[i].status in {Used, Cancelled}
    ensures i < |Run(ops + more).tickets| && Run(ops + more).tickets[i] == Run(ops).tickets[i]
    decreases |more|
  {
    hide Apply;
    if more == [] {
      assert ops + more == ops;
    } else {
      var n := |more| - 1;
      UsedAndCancelledAreFinal(ops, more[..n], i);
      FinalStays(Run(ops + more[..n]), more[n], i);
      assert (ops + more)[..|ops + more| - 1] == ops + more[..n];
    }
  }

  // ----- what a check-in answers

  lemma {:induction false} NotFoundIff(ts: seq<Ticket>, id: nat)
    ensures Entry(ts, id) == NotFound <==> forall i :: 0 <= i < |ts| ==> ts[i].id != id
    ensures Entry(ts, id) == NotFound ==> Entered(ts, id) == ts
  {
  }

  /** The status of the ticket decides: a used or cancelled one is refused and stays, any other is used up, and
      no other ticket changes. */
  lemma {:induction false} CheckInReplies(d: Desk, i: nat)
    requires Unique(d) && i < |d.tickets|
    ensures var ts, t := d.tickets, d.tickets[i];
            && Entry(ts, t.id) == (match t.status
                                   case Used => AlreadyUsed
                                   case Cancelled => WasCancelled
                                   case _ => CheckedIn)
            && Entered(ts, t.id) ==
               if t.status == Used || t.status == Cancelled then ts else ts[i := t.(status := Used)]
  {
    assert FindTicket(d.tickets, d.tickets[i].id) == i;
  }

  /** Ticket i may be checked in: it is ACTIVE and of booking b. */
  predicate Admits(d: Desk, i: nat, b: nat, id: nat) {
    i < |d.tickets| && d.tickets[i].id == id && d.tickets[i].booking == b && d.tickets[i].status == Active
  }

  lemma StaysAdmitted(d: Desk, op: Op, i: nat, b: nat, id: nat)
    requires Unique(d) && Admits(d, i, b, id) && op != CancelOp(b) && op != CheckInOp(id)
    ensures Admits(Apply(d, op), i, b, id)
  {
  }

  lemma {:induction false} RunAppend(ops: seq<Op>, op: Op)
    ensures Run(ops + [op]) == Apply(Run(ops), op)
  {
    assert (ops + [op])[..|ops|] == ops;
  }

  lemma {:induction false} StillAdmitted(ops: seq<Op>, more: seq<Op>, i: nat, b: nat, id: nat)
    requires Admits(Run(ops), i, b, id) && CancelOp(b) !in more && CheckInOp(id) !in more
    ensures Admits(Run(ops + more), i, b, id)
    decreases |more|
  {
    hide Apply, Unique, Admits;
    if more == [] {
      assert ops + more == ops;
    } else {
      var n := |more| - 1;
      assert more == more[..n] + [more[n]];
      StillAdmitted(ops, more[..n], i, b, id);
      CheckedInAtMostOnce(ops + more[..n], id);
      StaysAdmitted(Run(ops + more[..n]), more[n], i, b, id);
      assert ops + more == (ops + more[..n]) + [more[n]];
      RunAppend(ops + more[..n], more[n]);
    }
  }

  /** The tickets that a generation issues, one per seat under the next ids. */
  lemma {:induction false} GeneratedAreAdmitted(d: Desk, b: nat, seats: seq<Id>, j: nat)
    requires !HasTickets(d.tickets, b) && j < |seats|
    ensures var d' := Apply(d, GenerateOp(b, seats));
            && |d'.tickets| == |d.tickets| + |seats| && d'.tickets[..|d.tickets|] == d.tickets
            && d'.next == d.next + |seats|
            && Admits(d', |d.tickets| + j, b, d.next + j) && d'.tickets[|d.tickets| + j].seat == seats[j]
  {
    var d' := Apply(d, GenerateOp(b, seats));
    assert d'.tickets[..|d.tickets|] == d.tickets;
  }

  /** A ticket that was generated opens once: whatever else happens meanwhile, short of the cancellation of its
      booking, its first check-in succeeds, and every later one finds it used. */
  lemma {:induction false} OpensOnce(ops: seq<Op>, b: nat, seats: seq<Id>, j: nat, meanwhile: seq<Op>, later: seq<Op>)
    requires !HasTickets(Run(ops).tickets, b) && j < |seats|
    requires var id := Run(ops).next + j; CancelOp(b) !in meanwhile && CheckInOp(id) !in meanwhile
    ensures var id := Run(ops).next + j;
            var issued := ops + [GenerateOp(b, seats)] + meanwhile;
            && Entry(Run(issued).tickets, id) == CheckedIn
            && Entry(Run(issued + [CheckInOp(id)] + later).tickets, id) == AlreadyUsed
  {
    hide Apply, Unique;
    var id, i := Run(ops).next + j, |Run(ops).tickets| + j;
    var issued := ops + [GenerateOp(b, seats)] + meanwhile;
    RunAppend(ops, GenerateOp(b, seats));
    GeneratedAreAdmitted(Run(ops), b, seats, j);
    StillAdmitted(ops + [GenerateOp(b, seats)], meanwhile, i, b, id);
    CheckedInAtMostOnce(issued, id);
    CheckInReplies(Run(issued), i);
    RunAppend(issued, CheckInOp(id));
    CheckInUses(Run(issued), i);
    UsedAndCancelledAreFinal(issued + [CheckInOp(id)], later, i);
    CheckedInAtMostOnce(issued + [CheckInOp(id)] + later, id);
    CheckInReplies(Run(issued + [CheckInOp(id)] + later), i);
  }

  lemma CheckInUses(d: Desk, i: nat)
    requires Unique(d) && i < |d.tickets| && d.tickets[i].status == Active
    ensures var d' := Apply(d, CheckInOp(d.tickets[i].id));
            i < |d'.tickets| && d'.tickets[i].status == Used && d'.tickets[i].id == d.tickets[i].id
  {
    CheckInReplies(d, i);
  }

  /** And never, when its booking was cancelled before. */
  lemma {:induction false} CancelledNeverOpens(ops: seq<Op>, i: nat, later: seq<Op>)
    requires i < |Run(ops).tickets| && Run(ops).tickets[i].status == Active
    ensures var t := Run(ops).tickets[i];
            Entry(Run(ops + [CancelOp(t.booking)] + later).tickets, t.id) == WasCancelled
  {
    hide Apply, Unique;
    var t := Run(ops).tickets[i];
    RunAppend(ops, CancelOp(t.booking));
    CancelCancels(Run(ops), i);
    UsedAndCancelledAreFinal(ops + [CancelOp(t.booking)], later, i);
    CheckedInAtMostOnce(ops + [CancelOp(t.booking)] + later, t.id);
    CheckInReplies(Run(ops + [CancelOp(t.booking)] + later), i);
  }

  lemma CancelCancels(d: Desk, i: nat)
    requires i < |d.tickets| && d.tickets[i].status == Active
    ensures var d' := Apply(d, CancelOp(d.tickets[i].booking));
            i < |d'.tickets| && d'.tickets[i] == d.tickets[i].(status := Cancelled)
  {
  }

  /** A cancellation touches the ACTIVE tickets of its booking only. */
  lemma {:induction false} CancelDoes(ts: seq<Ticket>, b: nat, i: nat)
    requires i < |ts|
    ensures |CancelAll(ts, b)| == |ts|
    ensures CancelAll(ts, b)[i] ==
            if ts[i].booking == b && ts[i].status == Active
            then Ticket(ts[i].id, b, ts[i].item, ts[i].seat, Cancelled) else ts[i]
  {
  }
}
