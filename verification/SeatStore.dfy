/** The three stores of the seat-inventory service as one value, and what each operation of the
    hold, lock and inventory services does to it.  The imperative services are in HoldService. */
module SeatStore {
  import opened Basics

  const LOCK_TTL_MS: int := 600_000
  const HOLD_DURATION_MS: int := 600_000

  datatype Status = Available | Held | Reserved | Sold

  datatype Reason = Timeout | UserCancel | PaymentSuccess | Admin | PaymentFailed

  datatype SeatKey = SeatKey(event: Id, seat: Id)

  /** The columns of a seat that never change, as far as the read model shows them. */
  datatype Detail = Detail(section: string, price: int)

  datatype Row = Row(status: Status, detail: Detail)

  datatype Hold = Hold(key: SeatKey, user: Id, expiresAt: int, released: Option<Reason>)

  datatype Lock = Lock(user: Id, expiresAt: int)

  /** `rows` and `holds` are the Postgres tables.  `locks`, `avail` and `details` live in Redis;
      `locks` keeps only keys that have not expired at `now`, and the hash of event `e` is the part of
      `avail` whose keys belong to `e` (an empty hash does not exist in Redis). */
  datatype Store = Store(
    now: int,
    rows: map<SeatKey, Row>,
    holds: seq<Hold>,
    locks: map<SeatKey, Lock>,
    avail: map<SeatKey, Status>,
    details: map<SeatKey, Detail>)

  /** The rows, locks and cache fields a request for seats `ids` of event `e` is about. */
  function Keys(e: Id, ids: seq<Id>): set<SeatKey> {
    set s | s in ids :: SeatKey(e, s)
  }

  function Restatus(rows: map<SeatKey, Row>, ks: set<SeatKey>, s: Status): map<SeatKey, Row> {
    map k | k in rows :: if k in ks then rows[k].(status := s) else rows[k]
  }

  function CloseHold(h: Hold, ks: set<SeatKey>, u: Id, reason: Reason): Hold {
    if h.released.None? && h.user == u && h.key in ks then h.(released := Some(reason)) else h
  }

  function CloseHolds(hs: seq<Hold>, ks: set<SeatKey>, u: Id, reason: Reason): (r: seq<Hold>)
    ensures |r| == |hs|
    ensures forall i :: 0 <= i < |hs| ==> r[i] == CloseHold(hs[i], ks, u, reason)
  {
    seq(|hs|, i requires 0 <= i < |hs| => CloseHold(hs[i], ks, u, reason))
  }

  function DropLocks(locks: map<SeatKey, Lock>, ks: set<SeatKey>, u: Id): map<SeatKey, Lock> {
    map k | k in locks && !(k in ks && locks[k].user == u) :: locks[k]
  }

  function PutAvail(avail: map<SeatKey, Status>, ks: set<SeatKey>, s: Status): map<SeatKey, Status> {
    avail + map k | k in ks :: s
  }

  function PutLocks(locks: map<SeatKey, Lock>, ks: set<SeatKey>, u: Id, expiresAt: int): map<SeatKey, Lock> {
    locks + map k | k in ks :: Lock(u, expiresAt)
  }

  function NewHolds(e: Id, ids: seq<Id>, u: Id, expiresAt: int): (r: seq<Hold>)
    ensures |r| == |ids|
    ensures forall i :: 0 <= i < |ids| ==> r[i] == Hold(SeatKey(e, ids[i]), u, expiresAt, None)
  {
    seq(|ids|, i requires 0 <= i < |ids| => Hold(SeatKey(e, ids[i]), u, expiresAt, None))
  }

  // ----- holdSeats

  /** Position i of a request cannot be locked: its key is taken, or an earlier position took it. */
  predicate Blocked(locks: map<SeatKey, Lock>, e: Id, ids: seq<Id>, i: nat)
    requires i < |ids|
  {
    SeatKey(e, ids[i]) in locks || ids[i] in ids[..i]
  }

  predicate Lockable(locks: map<SeatKey, Lock>, e: Id, ids: seq<Id>) {
    Distinct(ids) && Keys(e, ids) !! locks.Keys
  }

  predicate AllAvailable(rows: map<SeatKey, Row>, ks: set<SeatKey>) {
    forall k :: k in ks ==> k in rows && rows[k].status == Available
  }

  predicate CanHold(st: Store, e: Id, ids: seq<Id>) {
    Lockable(st.locks, e, ids) && AllAvailable(st.rows, Keys(e, ids))
  }

  /** The whole move of a successful hold: seats, hold rows, locks and cache.  The hold rows are
      stamped `elapsed` milliseconds after the locks were taken. */
  function AfterHold(st: Store, e: Id, ids: seq<Id>, u: Id, elapsed: nat): Store {
    st.(rows := Restatus(st.rows, Keys(e, ids), Held),
        holds := st.holds + NewHolds(e, ids, u, st.now + elapsed + HOLD_DURATION_MS),
        locks := PutLocks(st.locks, Keys(e, ids), u, st.now + LOCK_TTL_MS),
        avail := PutAvail(st.avail, Keys(e, ids), Held))
  }

  function HoldSeats(st: Store, e: Id, ids: seq<Id>, u: Id, elapsed: nat): Store {
    if CanHold(st, e, ids) then AfterHold(st, e, ids, u, elapsed) else st
  }

  // ----- releaseSeats, markAsSold, relaseSoldSeats: none of them looks at the status it overwrites

  function ReleaseSeats(st: Store, e: Id, ids: seq<Id>, u: Id, reason: Reason): Store {
    st.(rows := Restatus(st.rows, Keys(e, ids), Available),
        holds := CloseHolds(st.holds, Keys(e, ids), u, reason),
        locks := DropLocks(st.locks, Keys(e, ids), u),
        avail := PutAvail(st.avail, Keys(e, ids), Available))
  }

  /** How far a release gets before it throws: the transaction fails, the locks are not deleted, the cache
      is not written, or nothing is thrown. */
  datatype Reach = RolledBack | Committed | Unlocked | Finished

  function ReleaseUpTo(st: Store, e: Id, ids: seq<Id>, u: Id, reason: Reason, reach: Reach): Store {
    var done := ReleaseSeats(st, e, ids, u, reason);
    match reach
    case RolledBack => st
    case Committed => done.(locks := st.locks, avail := st.avail)
    case Unlocked => done.(avail := st.avail)
    case Finished => done
  }

  function MarkAsSold(st: Store, e: Id, ids: seq<Id>, u: Id): Store {
    st.(rows := Restatus(st.rows, Keys(e, ids), Sold),
        holds := CloseHolds(st.holds, Keys(e, ids), u, PaymentSuccess),
        locks := DropLocks(st.locks, Keys(e, ids), u),
        avail := PutAvail(st.avail, Keys(e, ids), Sold))
  }

  function ReleaseSoldSeats(st: Store, e: Id, ids: seq<Id>): Store {
    st.(rows := Restatus(st.rows, Keys(e, ids), Available),
        avail := PutAvail(st.avail, Keys(e, ids), Available))
  }

  /** There are no locks to delete, so that only the cache can be missing. */
  function ReleaseSoldUpTo(st: Store, e: Id, ids: seq<Id>, reach: Reach): Store {
    var done := ReleaseSoldSeats(st, e, ids);
    match reach
    case RolledBack => st
    case Finished => done
    case _ => done.(avail := st.avail)
  }

  // ----- time, inventory creation, cache rebuild

  function Tick(st: Store, d: nat): Store {
    st.(now := st.now + d, locks := map k | k in st.locks && st.now + d < st.locks[k].expiresAt :: st.locks[k])
  }

  predicate HasRows(rows: map<SeatKey, Row>, e: Id) {
    exists k :: k in rows && k.event == e
  }

  /** A seat of an event as `event.create` announces it. */
  datatype NewSeat = NewSeat(seat: Id, detail: Detail)

  function SeatIds(seats: seq<NewSeat>): (ids: seq<Id>)
    ensures |ids| == |seats|
    ensures forall i :: 0 <= i < |seats| ==> ids[i] == seats[i].seat
  {
    seq(|seats|, i requires 0 <= i < |seats| => seats[i].seat)
  }

  function NewRows(e: Id, seats: seq<NewSeat>): (m: map<SeatKey, Row>)
    ensures m.Keys == Keys(e, SeatIds(seats))
    ensures forall k :: k in m ==> m[k].status == Available
  {
    if seats == [] then map[] else
      var n := |seats| - 1;
      var rest := NewRows(e, seats[..n]);
      assert SeatIds(seats) == SeatIds(seats[..n]) + [seats[n].seat];
      rest[SeatKey(e, seats[n].seat) := Row(Available, seats[n].detail)]
  }

  /** A second announcement of an event changes nothing; a repeated seat breaks the unique index and
      the whole save is rolled back. */
  function CreateFromEvent(st: Store, e: Id, seats: seq<NewSeat>): Store {
    if HasRows(st.rows, e) || !Distinct(SeatIds(seats)) then st
    else st.(rows := st.rows + NewRows(e, seats))
  }

  function RebuildCache(st: Store, e: Id): Store {
    if !HasRows(st.rows, e) then st
    else st.(
      avail := (map k | k in st.avail && k.event != e :: st.avail[k])
               + (map k | k in st.rows && k.event == e :: st.rows[k].status),
      details := (map k | k in st.details && k.event != e :: st.details[k])
               + (map k | k in st.rows && k.event == e :: st.rows[k].detail))
  }

  predicate VerifyHold(st: Store, e: Id, ids: seq<Id>, u: Id) {
    forall k :: k in Keys(e, ids) ==> k in st.locks && st.locks[k].user == u
  }
}
