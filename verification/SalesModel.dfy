/** Bookings and their seats together: seat inventory, bookings, delivery of `seats.mark_sold`, refunds and the
    expiry sweep.  What the code checks before each step is one predicate, what has to be assumed besides is
    another; the invariant is the one under which no seat is sold twice. */
module SalesModel {
  import opened Basics
  import opened SeatStore
  import opened SeatInvariant
  import opened BookingSaga
  import ExpirySweep
  import Payments

  /** Where a booking stands with its seats. */
  datatype Track =
    | InCall    // its `createBooking` call is running
    | Awaiting  // CONFIRMED, `seats.mark_sold` not delivered yet
    | Delivered // delivered at least once
    | Closed    // cancelled or abandoned, or its seats were released by a refund

  datatype Sys = Sys(st: Store, bookings: seq<Booking>, tracks: seq<Track>)

  datatype Step =
    | Inventory(op: SeatInvariant.Op) // requests to seat-inventory by anybody, rebuilds, time
    | Sweep
    | Order(user: Id, event: Id, ids: seq<Id>)
    | Conclude(b: nat, outcome: PaymentOutcome, commits: bool, cancelling: Cancelling)
    | Abandon(b: nat)
    | DeliverSale(b: nat)
    | Cancel(b: nat, key: Id)
    | RefundReply(b: nat, accepted: bool)
    | RefundRelease(b: nat, release: Reach, saved: bool) // the seat release call, and the save after it
    | RefundDone(b: nat)

  function KeysOf(row: Booking): set<SeatKey> {
    Keys(row.event, SeatsOf(row))
  }

  predicate Engaged(t: Track) {
    t.InCall? || t.Awaiting?
  }

  predicate Exists(s: Sys, b: nat) {
    b < |s.bookings| && b < |s.tracks|
  }

  ghost predicate OwnHold(holds: seq<Hold>, k: SeatKey, u: Id) {
    exists i :: 0 <= i < |holds| && Open(holds[i], k) && holds[i].user == u
  }

  /** No booking that is being paid for, or waits for its sale to be delivered, has one of these seats. */
  ghost predicate SparesEngaged(s: Sys, ks: set<SeatKey>) {
    forall b: nat :: Exists(s, b) && Engaged(s.tracks[b]) ==> ks !! KeysOf(s.bookings[b])
  }

  /** No booking that is not closed has one of these seats. */
  ghost predicate SparesOpen(s: Sys, ks: set<SeatKey>) {
    forall b: nat :: Exists(s, b) && !s.tracks[b].Closed? ==> ks !! KeysOf(s.bookings[b])
  }

  predicate AllIn(st: Store, ks: set<SeatKey>, status: Status) {
    forall k :: k in ks && k in st.rows ==> st.rows[k].status == status
  }

  /** What the code checks before a step, or what it takes for the step to come up: anybody can ask
      seat-inventory for anything, an outbox entry exists for every booking that was confirmed and can be
      delivered at any later time, and a refund goes through its states.  (Event ids contain no ':'.) */
  ghost predicate Possible(s: Sys, step: Step) {
    match step
    case Inventory(_) => true
    case Sweep => ExpirySweep.ColonFree(s.st.holds)
    case Order(u, e, ids) => Bookable(s.st, u, e, ids)
    case Conclude(b, _, _, _) => Exists(s, b) && s.tracks[b].InCall?
    case Abandon(b) => Exists(s, b) && s.tracks[b].InCall?
    case DeliverSale(b) =>
      Exists(s, b) && (s.bookings[b].status == Confirmed || s.bookings[b].status == RefundedBooking)
    case Cancel(b, _) => Exists(s, b) && s.bookings[b].status == Confirmed
    case RefundReply(b, _) => Exists(s, b) && s.bookings[b].refund == Some(RefundInitiated)
    case RefundRelease(b, _, _) => Exists(s, b) && s.bookings[b].refund == Some(PaymentRefunded)
    case RefundDone(b) => Exists(s, b) && s.bookings[b].refund == Some(SeatsReleased)
  }

  /** What is assumed besides: seats are given up neither while somebody else holds them nor while they are in
      a booking; sales and releases that come too late, or from outside, find nothing to do; no hold of a
      booking under way expires; a user does not book the same held seat twice; a release that commits also
      deletes its locks; and a sale is delivered before a refund releases the seats, which is not refused. */
  ghost predicate Assumed(s: Sys, step: Step) {
    match step
    case Inventory(OpRelease(e, ids, u, _)) => !HeldByOther(s.st, Keys(e, ids), u) && SparesOpen(s, Keys(e, ids))
    case Inventory(OpSell(e, ids, _)) => AllIn(s.st, Keys(e, ids), Sold)
    case Inventory(OpReleaseSold(e, ids)) => AllIn(s.st, Keys(e, ids), Available)
    case Sweep => SparesEngaged(s, ExpirySweep.ExpiredKeys(s.st))
    case Order(u, e, ids) =>
      forall b: nat :: Exists(s, b) && Engaged(s.tracks[b]) && s.bookings[b].user == u ==>
        Keys(e, ids) !! KeysOf(s.bookings[b])
    case Conclude(b, outcome, _, c) =>
      outcome.NotPaid? && c.firstSave && c.release.Committed? && Exists(s, b) ==>
        KeysOf(s.bookings[b]) !! s.st.locks.Keys
    case DeliverSale(b) => Exists(s, b) && s.tracks[b].Closed? ==> AllIn(s.st, KeysOf(s.bookings[b]), Sold)
    case RefundRelease(b, release, saved) =>
      Exists(s, b) ==>
        if release.RolledBack? then saved ==> !s.tracks[b].Delivered?
        else s.tracks[b].Delivered? || (s.tracks[b].Closed? && AllIn(s.st, KeysOf(s.bookings[b]), Available))
    case _ => true
  }

  ghost predicate Enabled(s: Sys, step: Step) {
    Possible(s, step) && Assumed(s, step)
  }

  function Put(s: Sys, b: nat, row: Booking, t: Track): Sys
    requires Exists(s, b)
  {
    s.(bookings := s.bookings[b := row], tracks := s.tracks[b := t])
  }

  /** The part of the booking world that matters here. */
  function WorldOf(s: Sys): World {
    World(s.bookings, [], [], Payments.Db([], [], 0), s.st)
  }

  /** The end of a `createBooking` call, as settled by the saga. */
  function Concluded(s: Sys, b: nat, outcome: PaymentOutcome, commits: bool, c: Cancelling): Sys
    requires Exists(s, b)
  {
    var w := Settle(WorldOf(s), b, outcome, commits, c);
    Sys(w.seats, w.bookings, s.tracks[b := if w.bookings[b].status == Confirmed then Awaiting else Closed])
  }

  function Delivers(s: Sys, b: nat): Sys
    requires Exists(s, b)
  {
    var row := s.bookings[b];
    Put(s, b, row, if s.tracks[b].Closed? then Closed else Delivered)
      .(st := MarkAsSold(s.st, row.event, SeatsOf(row), row.user))
  }

  function Releases(s: Sys, b: nat, release: Reach, saved: bool): Sys
    requires Exists(s, b)
  {
    var row := s.bookings[b];
    var row' := if saved then row.(refund := Some(SeatsReleased)) else row;
    Put(s, b, row', if saved || !release.RolledBack? then Closed else s.tracks[b])
      .(st := ReleaseSoldUpTo(s.st, row.event, SeatsOf(row), release))
  }

  function After(s: Sys, step: Step): Sys {
    match step
    case Inventory(op) => s.(st := SeatInvariant.Apply(s.st, op))
    case Sweep => s.(st := ExpirySweep.Sweep(s.st))
    case Order(u, e, ids) => Sys(s.st, Persist(WorldOf(s), u, e, ids).bookings, s.tracks + [InCall])
    case Conclude(b, outcome, commits, c) => if Exists(s, b) then Concluded(s, b, outcome, commits, c) else s
    case Abandon(b) => if Exists(s, b) then Put(s, b, s.bookings[b], Closed) else s
    case DeliverSale(b) => if Exists(s, b) then Delivers(s, b) else s
    case Cancel(b, key) => if Exists(s, b) then s.(bookings := InitiateRefund(WorldOf(s), b, key).bookings) else s
    case RefundReply(b, accepted) =>
      if !Exists(s, b) then s
      else
        var state := if accepted then PaymentRefunded else BookingSaga.Failed;
        Put(s, b, s.bookings[b].(refund := Some(state)), s.tracks[b])
    case RefundRelease(b, release, saved) => if Exists(s, b) then Releases(s, b, release, saved) else s
    case RefundDone(b) =>
      if !Exists(s, b) then s
      else Put(s, b, s.bookings[b].(status := RefundedBooking, refund := Some(Completed)), s.tracks[b])
  }

  // ----- the invariant

  /** CONFIRMED, and not given its money back. */
  predicate Owns(row: Booking) {
    row.status == Confirmed && row.refund != Some(PaymentRefunded)
    && row.refund != Some(SeatsReleased) && row.refund != Some(Completed)
  }

  predicate RowOk(row: Booking, t: Track) {
    && SeatsOf(row) != [] && Distinct(SeatsOf(row))
    && (Owns(row) ==> t.Awaiting? || t.Delivered?)
    && (t.Awaiting? || t.Delivered? ==>
         row.status == Confirmed && row.refund != Some(SeatsReleased) && row.refund != Some(Completed))
    && (t.InCall? ==> row.status == PendingBooking && row.refund.None?)
    && (row.refund == Some(RefundInitiated) ==> row.status == Confirmed)
    && (row.refund == Some(PaymentRefunded) ==> row.status == Confirmed)
  }

  ghost predicate SeatsOk(st: Store, ks: set<SeatKey>, u: Id, t: Track) {
    match t
    case Closed => true
    case Delivered => forall k :: k in ks ==> k in st.rows && st.rows[k].status == Sold
    case _ => forall k :: k in ks ==> k in st.rows && st.rows[k].status == Held && OwnHold(st.holds, k, u)
  }

  ghost predicate BookingOk(s: Sys, b: nat)
    requires Exists(s, b)
  {
    RowOk(s.bookings[b], s.tracks[b]) && SeatsOk(s.st, KeysOf(s.bookings[b]), s.bookings[b].user, s.tracks[b])
  }

  predicate Separate(s: Sys, b: nat, c: nat)
    requires Exists(s, b) && Exists(s, c)
  {
    s.tracks[b].Closed? || s.tracks[c].Closed? || KeysOf(s.bookings[b]) !! KeysOf(s.bookings[c])
  }

  /** This booking was sold this seat. */
  predicate SoldTo(s: Sys, k: SeatKey, b: nat) {
    Exists(s, b) && s.tracks[b].Delivered? && k in KeysOf(s.bookings[b])
  }

  /** Every SOLD seat was sold to somebody. */
  ghost predicate SoldOwned(s: Sys) {
    forall k :: k in s.st.rows && s.st.rows[k].status == Sold ==> exists b: nat :: SoldTo(s, k, b)
  }

  ghost predicate Safe(s: Sys) {
    && SeatInvariant.Inv(s.st)
    && |s.tracks| == |s.bookings|
    && (forall b: nat :: Exists(s, b) ==> BookingOk(s, b))
    && (forall b: nat, c: nat :: Exists(s, b) && Exists(s, c) && b != c ==> Separate(s, b, c))
    && SoldOwned(s)
  }

  // ----- frames

  /** Rows of ks and open holds on ks are the same in both stores. */
  ghost predicate SameOn(st: Store, st': Store, ks: set<SeatKey>) {
    && (forall k :: k in ks && k in st.rows ==> k in st'.rows && st'.rows[k] == st.rows[k])
    && (forall k, u :: k in ks && OwnHold(st.holds, k, u) ==> OwnHold(st'.holds, k, u))
  }

  lemma SeatsStayOk(st: Store, st': Store, ks: set<SeatKey>, u: Id, t: Track)
    requires SeatsOk(st, ks, u, t) && SameOn(st, st', ks)
    ensures SeatsOk(st', ks, u, t)
  {
  }

  lemma OverwriteElsewhere(st: Store, over: set<SeatKey>, u: Id, s: Status, reason: Reason, ks: set<SeatKey>)
    requires over !! ks
    ensures SameOn(st, Overwrite(st, over, u, s, reason), ks)
  {
    var st' := Overwrite(st, over, u, s, reason);
    forall k, v | k in ks && OwnHold(st.holds, k, v) ensures OwnHold(st'.holds, k, v) {
      var i :| 0 <= i < |st.holds| && Open(st.holds[i], k) && st.holds[i].user == v;
      assert Open(st'.holds[i], k);
    }
  }

  lemma ReleaseSoldElsewhere(st: Store, e: Id, ids: seq<Id>, ks: set<SeatKey>)
    requires Keys(e, ids) !! ks
    ensures SameOn(st, ReleaseSoldSeats(st, e, ids), ks)
  {
  }

  lemma HoldElsewhere(st: Store, e: Id, ids: seq<Id>, u: Id, elapsed: nat, ks: set<SeatKey>)
    requires forall k :: k in ks ==> k in st.rows && st.rows[k].status != Available
    ensures SameOn(st, HoldSeats(st, e, ids, u, elapsed), ks)
  {
    var st' := HoldSeats(st, e, ids, u, elapsed);
    if CanHold(st, e, ids) {
      forall k, v | k in ks && OwnHold(st.holds, k, v) ensures OwnHold(st'.holds, k, v) {
        var i :| 0 <= i < |st.holds| && Open(st.holds[i], k) && st.holds[i].user == v;
        assert st'.holds[i] == st.holds[i];
      }
    }
  }

  lemma SweepElsewhere(st: Store, ks: set<SeatKey>)
    requires Inv(st) && ExpirySweep.ColonFree(st.holds) && ExpirySweep.ExpiredKeys(st) !! ks
    ensures SameOn(st, ExpirySweep.Sweep(st), ks)
  {
    ExpirySweep.SweepIsExact(st);
    var st' := ExpirySweep.Sweep(st);
    forall k, v | k in ks && OwnHold(st.holds, k, v) ensures OwnHold(st'.holds, k, v) {
      var i :| 0 <= i < |st.holds| && Open(st.holds[i], k) && st.holds[i].user == v;
      assert Open(st'.holds[i], k);
    }
  }

  lemma OtherInventoryElsewhere(st: Store, op: SeatInvariant.Op, ks: set<SeatKey>)
    requires op.OpCreate? || op.OpRebuild? || op.OpTick?
    ensures SameOn(st, SeatInvariant.Apply(st, op), ks)
  {
    if op.OpCreate? && !HasRows(st.rows, op.e) {
      assert forall k :: k in NewRows(op.e, op.seats) ==> k.event == op.e;
    }
  }

  /** Open holds have one user. */
  lemma OneOwner(st: Store, k: SeatKey, u: Id, v: Id)
    requires Inv(st) && OwnHold(st.holds, k, u) && OwnHold(st.holds, k, v)
    ensures u == v
  {
    var i :| 0 <= i < |st.holds| && Open(st.holds[i], k) && st.holds[i].user == u;
    var j :| 0 <= j < |st.holds| && Open(st.holds[j], k) && st.holds[j].user == v;
    assert i == j;
  }

  /** Who holds all of some seats is the only one to hold any. */
  lemma HolderIsAlone(st: Store, ks: set<SeatKey>, u: Id)
    requires Inv(st) && forall k :: k in ks && k in st.rows && st.rows[k].status == Held ==> OwnHold(st.holds, k, u)
    ensures !HeldByOther(st, ks, u)
  {
    forall i | 0 <= i < |st.holds| && st.holds[i].released.None? && st.holds[i].key in ks
      ensures st.holds[i].user == u
    {
      var k := st.holds[i].key;
      assert Open(st.holds[i], k);
      assert OwnHold(st.holds, k, st.holds[i].user);
      OneOwner(st, k, u, st.holds[i].user);
    }
  }

  lemma NothingOverwritten(st: Store, over: set<SeatKey>, u: Id, s: Status, reason: Reason, ks: set<SeatKey>)
    requires Inv(st) && s != Held && AllIn(st, over, s)
    ensures !HeldByOther(st, over, u) && SameOn(st, Overwrite(st, over, u, s, reason), ks)
    ensures Overwrite(st, over, u, s, reason).rows == st.rows
  {
    var st' := Overwrite(st, over, u, s, reason);
    forall k, v | k in ks && OwnHold(st.holds, k, v) ensures OwnHold(st'.holds, k, v) {
      var i :| 0 <= i < |st.holds| && Open(st.holds[i], k) && st.holds[i].user == v;
      assert st.rows[k].status == Held;
      assert Open(st'.holds[i], k);
    }
  }

  /** At most booking b changes, the stores change only off the seats of the others that are not closed. */
  ghost predicate Local(s: Sys, s': Sys, b: nat) {
    && Inv(s'.st) && |s'.tracks| == |s.tracks| == |s.bookings| == |s'.bookings|
    && (forall c: nat :: Exists(s, c) && c != b ==> s'.bookings[c] == s.bookings[c] && s'.tracks[c] == s.tracks[c])
    && (forall c: nat :: Exists(s, c) && c != b && !s.tracks[c].Closed? ==> SameOn(s.st, s'.st, KeysOf(s.bookings[c])))
  }

  lemma LocalStepIsSafe(s: Sys, s': Sys, b: nat)
    requires Safe(s) && Local(s, s', b) && SoldOwned(s')
    requires Exists(s, b) ==> BookingOk(s', b) && KeysOf(s'.bookings[b]) == KeysOf(s.bookings[b])
    requires Exists(s, b) && s.tracks[b].Closed? ==> s'.tracks[b].Closed?
    ensures Safe(s')
  {
    hide SoldOwned;
    forall c: nat | Exists(s', c) ensures BookingOk(s', c) {
      assert BookingOk(s, c);
      if c != b && !s.tracks[c].Closed? {
        SeatsStayOk(s.st, s'.st, KeysOf(s.bookings[c]), s.bookings[c].user, s.tracks[c]);
      }
    }
    forall c: nat, d: nat | Exists(s', c) && Exists(s', d) && c != d ensures Separate(s', c, d) {
      assert Separate(s, c, d);
    }
  }

  /** No seat becomes SOLD but those of b if b is delivered; and who was sold a seat keeps it, but for b. */
  lemma SoldStaysOwned(s: Sys, s': Sys, b: nat)
    requires SoldOwned(s) && |s'.tracks| == |s.tracks| == |s.bookings| == |s'.bookings|
    requires forall c: nat :: Exists(s, c) && c != b ==> s'.bookings[c] == s.bookings[c] && s'.tracks[c] == s.tracks[c]
    requires Exists(s, b) ==> KeysOf(s'.bookings[b]) == KeysOf(s.bookings[b])
    requires forall k :: k in s'.st.rows && s'.st.rows[k].status == Sold ==>
               || SoldTo(s', k, b)
               || (k in s.st.rows && s.st.rows[k].status == Sold && !SoldTo(s, k, b))
    ensures SoldOwned(s')
  {
    forall k | k in s'.st.rows && s'.st.rows[k].status == Sold ensures exists c: nat :: SoldTo(s', k, c) {
      if !SoldTo(s', k, b) {
        var c: nat :| SoldTo(s, k, c);
        assert SoldTo(s', k, c);
      }
    }
  }

  /** No seat becomes SOLD. */
  predicate NoneSold(st: Store, st': Store) {
    forall k :: k in st'.rows && st'.rows[k].status == Sold ==> k in st.rows && st.rows[k].status == Sold
  }

  /** An inventory step that touches no seat of an open booking. */
  lemma StoreStepIsSafe(s: Sys, s': Sys)
    requires Safe(s) && s' == s.(st := s'.st) && Inv(s'.st) && NoneSold(s.st, s'.st)
    requires forall c: nat :: Exists(s, c) && !s.tracks[c].Closed? ==> SameOn(s.st, s'.st, KeysOf(s.bookings[c]))
    ensures Safe(s')
  {
    SoldStaysOwned(s, s', |s.bookings|);
    LocalStepIsSafe(s, s', |s.bookings|);
  }
}
