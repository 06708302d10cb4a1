/** What the operations of seat-inventory come to, seat by seat: prices and times in their own numbers, from
    the announcement of an event to a booking of its seats. */
module SeatLaws {
  import opened Basics
  import opened SeatStore
  import opened BookingSaga
  import ExpirySweep

  // ----- announcement

  lemma DistinctPrefix(seats: seq<NewSeat>, n: nat)
    requires Distinct(SeatIds(seats)) && n <= |seats|
    ensures Distinct(SeatIds(seats[..n]))
    ensures forall i :: 0 <= i < n < |seats| ==> seats[i].seat != seats[n].seat
  {
    assert SeatIds(seats)[..n] == SeatIds(seats[..n]);
    forall i | 0 <= i < n < |seats| ensures seats[i].seat != seats[n].seat {
      assert SeatIds(seats)[i] != SeatIds(seats)[n];
    }
  }

  lemma {:induction false} NewRowsAre(e: Id, seats: seq<NewSeat>, i: nat)
    requires Distinct(SeatIds(seats)) && i < |seats|
    ensures SeatKey(e, seats[i].seat) in NewRows(e, seats)
    ensures NewRows(e, seats)[SeatKey(e, seats[i].seat)] == Row(Available, seats[i].detail)
  {
    hide Distinct;
    var n := |seats| - 1;
    DistinctPrefix(seats, n);
    if i < n {
      NewRowsAre(e, seats[..n], i);
    }
  }

  /** The first announcement of an event creates one AVAILABLE row per seat with what was announced of it, and
      nothing else. */
  lemma {:induction false} AnnouncedSeatsExist(st: Store, e: Id, seats: seq<NewSeat>)
    requires !HasRows(st.rows, e) && Distinct(SeatIds(seats))
    ensures var st' := CreateFromEvent(st, e, seats);
            && st' == st.(rows := st'.rows)
            && (forall i :: 0 <= i < |seats| ==>
                 SeatKey(e, seats[i].seat) in st'.rows
                 && st'.rows[SeatKey(e, seats[i].seat)] == Row(Available, seats[i].detail))
            && (forall k :: k in st.rows ==> k in st'.rows && st'.rows[k] == st.rows[k])
            && (forall k :: k in st'.rows && k !in st.rows ==>
                 exists i :: 0 <= i < |seats| && k == SeatKey(e, seats[i].seat))
  {
    forall i | 0 <= i < |seats|
      ensures SeatKey(e, seats[i].seat) in NewRows(e, seats)
      ensures NewRows(e, seats)[SeatKey(e, seats[i].seat)] == Row(Available, seats[i].detail)
    {
      NewRowsAre(e, seats, i);
    }
    forall k | k in NewRows(e, seats) ensures exists i :: 0 <= i < |seats| && k == SeatKey(e, seats[i].seat) {
      var s :| s in SeatIds(seats) && k == SeatKey(e, s);
      var i :| 0 <= i < |seats| && SeatIds(seats)[i] == s;
    }
  }

  lemma {:induction false} OtherAnnouncementsDoNothing(st: Store, e: Id, seats: seq<NewSeat>)
    ensures CreateFromEvent(st, e, seats) == st <==> HasRows(st.rows, e) || !Distinct(SeatIds(seats)) || seats == []
  {
    if !HasRows(st.rows, e) && Distinct(SeatIds(seats)) {
      AnnouncedSeatsExist(st, e, seats);
      if seats != [] {
        assert SeatKey(e, seats[0].seat) !in st.rows;
      } else {
        assert CreateFromEvent(st, e, seats).rows == st.rows;
      }
    }
  }

  // ----- what changes, seat by seat

  /** Exactly these seats get the status, in the rows as far as they have one and in the cache; everything
      else of rows, cache and time stays. */
  ghost predicate OnlySeats(st: Store, st': Store, ks: set<SeatKey>, status: Status) {
    && st'.now == st.now && st'.details == st.details
    && (forall k :: k in st'.rows <==> k in st.rows)
    && (forall k :: k in st.rows ==>
         st'.rows[k].detail == st.rows[k].detail
         && st'.rows[k].status == if k in ks then status else st.rows[k].status)
    && (forall k :: k in st'.avail <==> k in st.avail || k in ks)
    && (forall k :: k in st'.avail ==> st'.avail[k] == if k in ks then status else st.avail[k])
  }

  /** This user's open holds on these seats are closed for the reason; every other hold stays. */
  ghost predicate HoldsClosed(st: Store, st': Store, ks: set<SeatKey>, u: Id, reason: Reason) {
    && |st'.holds| == |st.holds|
    && forall i :: 0 <= i < |st.holds| ==>
         var h := st.holds[i];
         var mine := h.released.None? && h.user == u && h.key in ks;
         st'.holds[i] == if mine then Hold(h.key, u, h.expiresAt, Some(reason)) else h
  }

  /** This user's locks on these seats are gone; every other lock stays. */
  ghost predicate LocksGone(st: Store, st': Store, ks: set<SeatKey>, u: Id) {
    && (forall k :: k in st'.locks <==> k in st.locks && !(k in ks && st.locks[k].user == u))
    && (forall k :: k in st'.locks ==> st'.locks[k] == st.locks[k])
  }

  /** A hold that succeeds: one open hold per seat, for ten minutes after it is stamped, and a lock for ten
      minutes. */
  lemma {:induction false} HoldDoes(st: Store, e: Id, ids: seq<Id>, u: Id, elapsed: nat)
    requires CanHold(st, e, ids)
    ensures var st', n := HoldSeats(st, e, ids, u, elapsed), |st.holds|;
            && OnlySeats(st, st', Keys(e, ids), Held)
            && |st'.holds| == n + |ids| && st'.holds[..n] == st.holds
            && (forall i :: 0 <= i < |ids| ==>
                 st'.holds[n + i] == Hold(SeatKey(e, ids[i]), u, st.now + elapsed + 600_000, None))
            && (forall k :: k in st'.locks <==> k in st.locks || k in Keys(e, ids))
            && (forall k :: k in st'.locks ==>
                 st'.locks[k] == if k in Keys(e, ids) then Lock(u, st.now + 600_000) else st.locks[k])
  {
    hide CanHold, Restatus, PutAvail, PutLocks, OnlySeats, Keys;
    HoldIsMove(st, e, ids, u, elapsed);
    MoveIsOnSeats(st, HoldSeats(st, e, ids, u, elapsed), Keys(e, ids), Held);
    NewLocksAre(st.locks, Keys(e, ids), u, st.now + 600_000);
    assert (st.holds + NewHolds(e, ids, u, st.now + elapsed + 600_000))[..|st.holds|] == st.holds;
  }

  lemma HoldIsMove(st: Store, e: Id, ids: seq<Id>, u: Id, elapsed: nat)
    requires CanHold(st, e, ids)
    ensures HoldSeats(st, e, ids, u, elapsed) ==
            st.(rows := Restatus(st.rows, Keys(e, ids), Held),
                holds := st.holds + NewHolds(e, ids, u, st.now + elapsed + 600_000),
                locks := PutLocks(st.locks, Keys(e, ids), u, st.now + 600_000),
                avail := PutAvail(st.avail, Keys(e, ids), Held))
  {
    hide CanHold, Restatus, PutAvail, PutLocks, Keys;
  }

  lemma MoveIsOnSeats(st: Store, st': Store, ks: set<SeatKey>, s: Status)
    requires st'.now == st.now && st'.details == st.details
    requires st'.rows == Restatus(st.rows, ks, s) && st'.avail == PutAvail(st.avail, ks, s)
    ensures OnlySeats(st, st', ks, s)
  {
  }

  lemma NewLocksAre(locks: map<SeatKey, Lock>, ks: set<SeatKey>, u: Id, expiresAt: int)
    ensures forall k :: k in PutLocks(locks, ks, u, expiresAt) <==> k in locks || k in ks
    ensures forall k :: k in PutLocks(locks, ks, u, expiresAt) ==>
              PutLocks(locks, ks, u, expiresAt)[k] == if k in ks then Lock(u, expiresAt) else locks[k]
  {
  }

  /** It succeeds iff the seats are distinct, unlocked and AVAILABLE; otherwise nothing changes. */
  lemma {:induction false} HoldSucceedsIff(st: Store, e: Id, ids: seq<Id>, u: Id, elapsed: nat)
    requires ids != []
    ensures HoldSeats(st, e, ids, u, elapsed) != st <==>
            && (forall i, j :: 0 <= i < j < |ids| ==> ids[i] != ids[j])
            && forall i :: 0 <= i < |ids| ==>
                 var k := SeatKey(e, ids[i]);
                 k !in st.locks && k in st.rows && st.rows[k].status == Available
  {
    if CanHold(st, e, ids) {
      assert |HoldSeats(st, e, ids, u, elapsed).holds| == |st.holds| + |ids|;
      forall i | 0 <= i < |ids| ensures SeatKey(e, ids[i]) in Keys(e, ids) {
      }
    } else if forall i :: 0 <= i < |ids| ==> SeatKey(e, ids[i]) !in st.locks {
      assert forall k :: k in Keys(e, ids) ==> exists i :: 0 <= i < |ids| && k == SeatKey(e, ids[i]);
    }
  }

  lemma {:induction false} ReleaseDoes(st: Store, e: Id, ids: seq<Id>, u: Id, reason: Reason)
    ensures var st' := ReleaseSeats(st, e, ids, u, reason);
            && OnlySeats(st, st', Keys(e, ids), Available)
            && HoldsClosed(st, st', Keys(e, ids), u, reason) && LocksGone(st, st', Keys(e, ids), u)
  {
  }

  lemma {:induction false} SaleDoes(st: Store, e: Id, ids: seq<Id>, u: Id)
    ensures var st' := MarkAsSold(st, e, ids, u);
            && OnlySeats(st, st', Keys(e, ids), Sold)
            && HoldsClosed(st, st', Keys(e, ids), u, PaymentSuccess) && LocksGone(st, st', Keys(e, ids), u)
  {
  }

  lemma {:induction false} ReleaseSoldDoes(st: Store, e: Id, ids: seq<Id>)
    ensures var st' := ReleaseSoldSeats(st, e, ids);
            OnlySeats(st, st', Keys(e, ids), Available) && st'.holds == st.holds && st'.locks == st.locks
  {
  }

  /** How far a release gets: the transaction, then the locks, then the cache. */
  lemma {:induction false} ReleaseStages(st: Store, e: Id, ids: seq<Id>, u: Id, reason: Reason)
    ensures var done := ReleaseSeats(st, e, ids, u, reason);
            && ReleaseUpTo(st, e, ids, u, reason, RolledBack) == st
            && ReleaseUpTo(st, e, ids, u, reason, Finished) == done
            && (var part := ReleaseUpTo(st, e, ids, u, reason, Committed);
                part == st.(rows := done.rows, holds := done.holds))
            && (var part := ReleaseUpTo(st, e, ids, u, reason, Unlocked);
                part == st.(rows := done.rows, holds := done.holds, locks := done.locks))
            && ReleaseSoldUpTo(st, e, ids, RolledBack) == st
            && ReleaseSoldUpTo(st, e, ids, Finished) == ReleaseSoldSeats(st, e, ids)
            && ReleaseSoldUpTo(st, e, ids, Committed) == st.(rows := ReleaseSoldSeats(st, e, ids).rows)
  {
  }

  /** Both hashes of the event become a copy of its rows, those of other events stay. */
  lemma {:induction false} RebuildDoes(st: Store, e: Id, k: SeatKey)
    requires HasRows(st.rows, e)
    ensures var st' := RebuildCache(st, e);
            && st' == st.(avail := st'.avail, details := st'.details)
            && (k.event == e ==> (k in st'.avail <==> k in st.rows) && (k in st'.details <==> k in st.rows))
            && (k.event == e && k in st.rows ==>
                 st'.avail[k] == st.rows[k].status && st'.details[k] == st.rows[k].detail)
            && (k.event != e ==> (k in st'.avail <==> k in st.avail) && (k in st'.details <==> k in st.details))
            && (k.event != e && k in st.avail ==> st'.avail[k] == st.avail[k])
            && (k.event != e && k in st.details ==> st'.details[k] == st.details[k])
  {
  }

  // ----- time

  /** After a hold the seats are verified for its user for ten minutes, and for nobody else. */
  lemma {:induction false} VerifiedForTenMinutes(st: Store, e: Id, ids: seq<Id>, u: Id, elapsed: nat, d: nat, v: Id)
    requires CanHold(st, e, ids) && ids != []
    ensures VerifyHold(Tick(HoldSeats(st, e, ids, u, elapsed), d), e, ids, v) <==> v == u && d < 600_000
  {
    hide HoldSeats, CanHold;
    var held := HoldSeats(st, e, ids, u, elapsed);
    HoldDoes(st, e, ids, u, elapsed);
    assert SeatKey(e, ids[0]) in Keys(e, ids);
    assert held.locks[SeatKey(e, ids[0])] == Lock(u, st.now + 600_000);
  }

  /** Its holds expire when more than ten minutes have passed since they were stamped. */
  lemma {:induction false} HoldsExpireAfterTenMinutes(st: Store, e: Id, ids: seq<Id>, u: Id, elapsed: nat, d: nat,
                                                      i: nat)
    requires CanHold(st, e, ids) && i < |ids|
    ensures var later := Tick(HoldSeats(st, e, ids, u, elapsed), d);
            && |st.holds| + i < |later.holds|
            && (ExpirySweep.IsExpired(later.holds[|st.holds| + i], later.now) <==> d > 600_000 + elapsed)
  {
    HoldDoes(st, e, ids, u, elapsed);
  }

  /** Time changes the clock, and takes the locks whose time is over. */
  lemma {:induction false} TickDoes(st: Store, d: nat, k: SeatKey)
    ensures var st' := Tick(st, d);
            && st' == st.(now := st.now + d, locks := st'.locks)
            && (k in st'.locks <==> k in st.locks && st.now + d < st.locks[k].expiresAt)
            && (k in st'.locks ==> st'.locks[k] == st.locks[k])
  {
  }

  // ----- from the announcement to the booking

  predicate Picked(seats: seq<NewSeat>, picks: seq<nat>) {
    forall i :: 0 <= i < |picks| ==> picks[i] < |seats|
  }

  function SeatsAt(seats: seq<NewSeat>, picks: seq<nat>): (ids: seq<Id>)
    requires Picked(seats, picks)
    ensures |ids| == |picks| && forall i :: 0 <= i < |picks| ==> ids[i] == seats[picks[i]].seat
  {
    seq(|picks|, i requires 0 <= i < |picks| => seats[picks[i]].seat)
  }

  function PricesAt(seats: seq<NewSeat>, picks: seq<nat>): int
    requires Picked(seats, picks)
  {
    if picks == [] then 0
    else PricesAt(seats, picks[..|picks| - 1]) + seats[picks[|picks| - 1]].detail.price
  }

  lemma {:induction false} ItemsAtAnnouncedPrices(rows: map<SeatKey, Row>, e: Id, seats: seq<NewSeat>, picks: seq<nat>)
    requires Picked(seats, picks)
    requires forall i :: 0 <= i < |seats| ==>
               SeatKey(e, seats[i].seat) in rows && rows[SeatKey(e, seats[i].seat)].detail == seats[i].detail
    ensures ItemTotal(ItemsFor(rows, e, SeatsAt(seats, picks))) == PricesAt(seats, picks)
  {
    if picks != [] {
      var n := |picks| - 1;
      ItemsAtAnnouncedPrices(rows, e, seats, picks[..n]);
      var all, rest := ItemsFor(rows, e, SeatsAt(seats, picks)), ItemsFor(rows, e, SeatsAt(seats, picks[..n]));
      assert all == rest + [Item(seats[picks[n]].seat, seats[picks[n]].detail.price)];
      SumSnoc(rest, all[n], (it: Item) => it.price);
    }
  }

  lemma PickedSeatsCanBeHeld(st: Store, e: Id, seats: seq<NewSeat>, picks: seq<nat>)
    requires !HasRows(st.rows, e) && Distinct(SeatIds(seats)) && Distinct(picks)
    requires Picked(seats, picks)
    requires Keys(e, SeatsAt(seats, picks)) !! st.locks.Keys
    ensures CanHold(CreateFromEvent(st, e, seats), e, SeatsAt(seats, picks))
  {
    hide CreateFromEvent;
    var ids := SeatsAt(seats, picks);
    AnnouncedSeatsExist(st, e, seats);
    forall i, j | 0 <= i < j < |ids| ensures ids[i] != ids[j] {
      assert SeatIds(seats)[picks[i]] == ids[i] && SeatIds(seats)[picks[j]] == ids[j];
    }
    forall k | k in Keys(e, ids) ensures exists i :: 0 <= i < |seats| && k == SeatKey(e, seats[i].seat) {
      var i :| 0 <= i < |ids| && k == SeatKey(e, ids[i]);
      assert k == SeatKey(e, seats[picks[i]].seat);
    }
  }

  lemma HeldCanBeBooked(st: Store, e: Id, ids: seq<Id>, u: Id, elapsed: nat)
    requires CanHold(st, e, ids) && ids != []
    ensures Bookable(HoldSeats(st, e, ids, u, elapsed), u, e, ids)
  {
    forall s | s in ids ensures SeatKey(e, s) in Keys(e, ids) {
    }
  }

  /** Seats of an announced event that are held can be booked by their holder, at the announced prices. */
  lemma {:induction false} BookedAtAnnouncedPrices(st: Store, e: Id, seats: seq<NewSeat>, picks: seq<nat>, u: Id,
                                                   elapsed: nat)
    requires !HasRows(st.rows, e) && Distinct(SeatIds(seats)) && Distinct(picks) && picks != []
    requires Picked(seats, picks)
    requires Keys(e, SeatsAt(seats, picks)) !! st.locks.Keys
    ensures var ids := SeatsAt(seats, picks);
            var held := HoldSeats(CreateFromEvent(st, e, seats), e, ids, u, elapsed);
            Bookable(held, u, e, ids) && NewBooking(held, u, e, ids).total == PricesAt(seats, picks)
  {
    hide CreateFromEvent, CanHold, Bookable, HoldSeats, ItemTotal, ItemsFor;
    var ids, created := SeatsAt(seats, picks), CreateFromEvent(st, e, seats);
    var held := HoldSeats(created, e, ids, u, elapsed);
    AnnouncedSeatsExist(st, e, seats);
    PickedSeatsCanBeHeld(st, e, seats, picks);
    HeldCanBeBooked(created, e, ids, u, elapsed);
    HoldDoes(created, e, ids, u, elapsed);
    ItemsAtAnnouncedPrices(held.rows, e, seats, picks);
  }
}
