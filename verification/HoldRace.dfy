/** Any number of concurrent `holdSeats`, `releaseSeats` and `markAsSold` calls, split into their single
    Redis and database steps.  Under four explicit hypotheses no two holds overlap on a seat; dropping
    any one of them, a concrete interleaving breaks it. */
module HoldRace {
  import opened Basics
  import opened SeatStore

  /** Seat keys and users are only compared here. */
  type Seat = int
  type User = int

  datatype Kind = KHold | KRelease | KSell

  /** `rest` is what the current loop has still to visit. */
  datatype Phase =
    | Locking(rest: seq<Seat>, got: seq<Seat>, failed: bool)  // lockSeats: SET NX on rest[0] is next
    | RollingBack(rest: seq<Seat>)                               // lockSeats failed: DEL rest[0] is next
    | Reading                                                       // all locked: the rows are read next
    | Committing                                                    // every row was AVAILABLE: the commit is next
    | Finding                                                       // release or sale: open hold rows are read next
    | Closing(found: set<nat>)                                      // release or sale: the commit is next
    | Unlocking(rest: seq<Seat>, seen: bool)                     // the locks: GET rest[0], or DEL it when seen

  datatype Call = Call(kind: Kind, user: User, ids: seq<Seat>, phase: Phase)

  datatype HoldRow = HoldRow(key: Seat, user: User, open: bool)

  /** `setBy` is the call that set the lock; the stored value itself carries only the user. */
  datatype LockRow = LockRow(user: User, setBy: nat)

  datatype State = State(
    rows: map<Seat, Status>,
    holds: seq<HoldRow>,
    locks: map<Seat, LockRow>,
    calls: map<nat, Call>,
    next: nat)

  datatype Event =
    | Begin(kind: Kind, user: User, ids: seq<Seat>)
    | Step(c: nat)
    | Throw(c: nat) // an exception in the try block of a hold: its catch deletes the locks
    | Crash(c: nat) // also an exception that no catch handles
    | ExpireLock(k: Seat)

  /** The hypotheses under which the protocol is safe. */
  datatype Hypotheses = Hypotheses(
    oneCallPerUser: bool,       // a user (or the sweep on a user's behalf) has one call in flight
    holdersOnly: bool,          // releases and sales are of seats the user holds
    locksOutliveCalls: bool,    // no lock expires during the call that set it
    noExpiryBeforeDel: bool)    // no lock expires between the GET and the DEL of a release

  const AllHypotheses := Hypotheses(true, true, true, true)

  ghost predicate Holds(s: State, k: Seat, u: User) {
    exists i :: 0 <= i < |s.holds| && s.holds[i] == HoldRow(k, u, true)
  }

  ghost predicate Enabled(s: State, ev: Event, hyp: Hypotheses) {
    match ev
    case Begin(kind, user, ids) =>
      && (hyp.oneCallPerUser ==> forall c :: c in s.calls ==> s.calls[c].user != user)
      && (hyp.holdersOnly && !kind.KHold? ==> forall k :: k in ids ==> Holds(s, k, user))
    case Step(c) => c in s.calls
    case Throw(c) => c in s.calls && PastLocking(s.calls[c])
    case Crash(c) => c in s.calls
    case ExpireLock(k) =>
      && k in s.locks
      && (hyp.locksOutliveCalls ==> s.locks[k].setBy !in s.calls)
      && (hyp.noExpiryBeforeDel ==> forall c :: c in s.calls ==> !AboutToDelete(s.calls[c], k))
  }

  /** Every seat is locked, nothing is committed yet. */
  predicate PastLocking(call: Call) {
    call.kind.KHold? && (call.phase.Reading? || call.phase.Committing?)
  }

  predicate AboutToDelete(call: Call, k: Seat) {
    call.phase.Unlocking? && call.phase.seen && call.phase.rest != [] && call.phase.rest[0] == k
  }

  function Goto(s: State, c: nat, p: Phase): State
    requires c in s.calls
  {
    s.(calls := s.calls[c := s.calls[c].(phase := p)])
  }

  function End(s: State, c: nat): State {
    s.(calls := s.calls - {c})
  }

  function WriteRows(rows: map<Seat, Status>, ids: seq<Seat>, st: Status): map<Seat, Status> {
    map k | k in rows :: if k in ids then st else rows[k]
  }

  function OpenHolds(ids: seq<Seat>, u: User): (r: seq<HoldRow>)
    ensures |r| == |ids| && forall i :: 0 <= i < |ids| ==> r[i] == HoldRow(ids[i], u, true)
  {
    seq(|ids|, i requires 0 <= i < |ids| => HoldRow(ids[i], u, true))
  }

  function CloseFound(holds: seq<HoldRow>, found: set<nat>, ids: seq<Seat>): (r: seq<HoldRow>)
    ensures |r| == |holds|
    ensures forall i :: 0 <= i < |holds| ==>
            r[i] == if i in found && holds[i].key in ids then holds[i].(open := false) else holds[i]
  {
    seq(|holds|, i requires 0 <= i < |holds| =>
        if i in found && holds[i].key in ids then holds[i].(open := false) else holds[i])
  }

  predicate SeatsAvailable(rows: map<Seat, Status>, ids: seq<Seat>) {
    forall k :: k in ids ==> k in rows && rows[k] == Available
  }

  /** The next single step of call c. */
  function StepCall(s: State, c: nat): State
    requires c in s.calls
  {
    var call := s.calls[c];
    match call.phase
    case Locking(rest, got, failed) =>
      if rest == [] then Goto(s, c, if failed then RollingBack(got) else Reading)
      else if rest[0] in s.locks then Goto(s, c, Locking(rest[1..], got, true))
      else Goto(s.(locks := s.locks[rest[0] := LockRow(call.user, c)]), c, Locking(rest[1..], got + [rest[0]], failed))
    case RollingBack(rest) =>
      if rest == [] then End(s, c) else Goto(s.(locks := s.locks - {rest[0]}), c, RollingBack(rest[1..]))
    case Reading =>
      Goto(s, c, if SeatsAvailable(s.rows, call.ids) then Committing else Unlocking(call.ids, false))
    case Committing =>
      End(s.(rows := WriteRows(s.rows, call.ids, Held), holds := s.holds + OpenHolds(call.ids, call.user)), c)
    case Finding =>
      Goto(s, c, Closing(set i | 0 <= i < |s.holds| && s.holds[i].open && s.holds[i].user == call.user))
    case Closing(found) =>
      Goto(s.(rows := WriteRows(s.rows, call.ids, if call.kind.KSell? then Sold else Available),
              holds := CloseFound(s.holds, found, call.ids)), c, Unlocking(call.ids, false))
    case Unlocking(rest, seen) =>
      if rest == [] then End(s, c)
      else if seen then Goto(s.(locks := s.locks - {rest[0]}), c, Unlocking(rest[1..], false))
      else if rest[0] in s.locks && s.locks[rest[0]].user == call.user then Goto(s, c, Unlocking(rest, true))
      else Goto(s, c, Unlocking(rest[1..], false))
  }

  function Apply(s: State, ev: Event): State {
    match ev
    case Begin(kind, user, ids) =>
      var first := if kind.KHold? then Locking(ids, [], false) else Finding;
      s.(calls := s.calls[s.next := Call(kind, user, ids, first)], next := s.next + 1)
    case Step(c) => if c in s.calls then StepCall(s, c) else s
    case Throw(c) => if c in s.calls then Goto(s, c, Unlocking(s.calls[c].ids, false)) else s
    case Crash(c) => End(s, c)
    case ExpireLock(k) => s.(locks := s.locks - {k})
  }

  // ----- the invariant

  /** Call c has set the locks on ks, and they are still there. */
  ghost predicate Owns(s: State, c: nat, ks: seq<Seat>) {
    Distinct(ks) && forall k :: k in ks ==> k in s.locks && s.locks[k].setBy == c
  }

  /** The locks a call relies on, phase by phase. */
  ghost predicate LocksHeld(s: State, c: nat)
    requires c in s.calls
  {
    var call := s.calls[c];
    match call.phase
    case Locking(rest, got, failed) => call.kind.KHold? && Owns(s, c, got) && (!failed ==> got + rest == call.ids)
    case RollingBack(rest) => call.kind.KHold? && Owns(s, c, rest)
    case Reading => call.kind.KHold? && Owns(s, c, call.ids)
    case Committing => call.kind.KHold? && Owns(s, c, call.ids)
    case Finding => !call.kind.KHold?
    case Closing(_) => !call.kind.KHold?
    case Unlocking(rest, seen) =>
      && (call.kind.KHold? ==> Owns(s, c, rest))
      && (seen ==> rest != [] && rest[0] in s.locks && s.locks[rest[0]].user == call.user)
  }

  ghost predicate AllLocksHeld(s: State) {
    forall c :: c in s.calls ==> c < s.next && LocksHeld(s, c)
  }

  ghost predicate OneCallPerUser(s: State) {
    forall c, d :: c in s.calls && d in s.calls && c != d ==> s.calls[c].user != s.calls[d].user
  }

  ghost predicate LockTags(s: State) {
    && (forall k :: k in s.locks ==> s.locks[k].setBy < s.next)
    && (forall k :: k in s.locks && s.locks[k].setBy in s.calls ==> s.locks[k].user == s.calls[s.locks[k].setBy].user)
  }

  ghost predicate HoldsOk(s: State) {
    && OneHoldPerSeat(s)
    && (forall i :: 0 <= i < |s.holds| && s.holds[i].open ==>
       s.holds[i].key in s.rows && s.rows[s.holds[i].key] == Held)
    && (forall k :: k in s.rows && s.rows[k] == Held ==>
       exists i :: 0 <= i < |s.holds| && s.holds[i].open && s.holds[i].key == k)
  }

  /** What a call relies on in the database until its commit. */
  ghost predicate RelyOk(s: State, call: Call) {
    match call.phase
    case Committing => SeatsAvailable(s.rows, call.ids)
    case Finding => forall k :: k in call.ids ==> Holds(s, k, call.user)
    case Closing(found) =>
      && (forall k :: k in call.ids ==> Holds(s, k, call.user))
      && (forall i :: i in found ==> i < |s.holds| && s.holds[i].user == call.user)
      && (forall i :: 0 <= i < |s.holds| && s.holds[i].open && s.holds[i].user == call.user ==> i in found)
    case _ => true
  }

  ghost predicate AllRely(s: State) {
    forall c :: c in s.calls ==> RelyOk(s, s.calls[c])
  }

  ghost predicate Inv(s: State) {
    OneCallPerUser(s) && LockTags(s) && AllLocksHeld(s) && HoldsOk(s) && AllRely(s)
  }

  // ----- what is claimed

  /** No two calls are past locking and before commit on the same seat. */
  ghost predicate Exclusive(s: State) {
    forall c, d, k ::
      c in s.calls && d in s.calls && c != d && PastLocking(s.calls[c]) && PastLocking(s.calls[d])
      && k in s.calls[c].ids ==>
      k !in s.calls[d].ids
  }

  /** No two open hold rows share a seat. */
  ghost predicate OneHoldPerSeat(s: State) {
    forall i, j :: 0 <= i < j < |s.holds| && s.holds[i].open && s.holds[j].open ==> s.holds[i].key != s.holds[j].key
  }

  lemma InvImpliesExclusive(s: State)
    requires Inv(s)
    ensures Exclusive(s)
  {
    forall c, d, k |
      c in s.calls && d in s.calls && c != d && PastLocking(s.calls[c]) && PastLocking(s.calls[d])
      && k in s.calls[c].ids
      ensures k !in s.calls[d].ids
    {
      assert LocksHeld(s, c) && LocksHeld(s, d);
      assert s.locks[k].setBy == c;
      assert forall x :: x in s.calls[d].ids ==> x in s.locks && s.locks[x].setBy == d;
    }
  }

  // ----- preservation: what a step does to the locks other calls rely on

  /** Call c moves or ends; the other calls and the call counter stay. */
  ghost predicate CallMove(s: State, s': State, c: nat) {
    && c in s.calls && s'.next == s.next
    && (forall d :: d in s'.calls ==> d in s.calls && s'.calls[d].user == s.calls[d].user)
    && (forall d :: d in s.calls && d != c ==> d in s'.calls && s'.calls[d] == s.calls[d])
  }

  /** At most the locks in `gone` disappear, and none of them is a lock another call in flight relies on. */
  ghost predicate SparesOthers(s: State, s': State, c: nat, gone: set<Seat>) {
    && (forall j :: j in s.locks && j !in gone ==> j in s'.locks && s'.locks[j] == s.locks[j])
    && (forall k :: k in gone && k in s.locks ==> s.locks[k].setBy == c || s.locks[k].setBy !in s.calls)
    && (forall k, d :: k in gone && k in s.locks && d in s.calls && d != c ==> s.locks[k].user != s.calls[d].user)
  }

  lemma OwnedStay(s: State, s': State, c: nat, gone: set<Seat>, d: nat, ks: seq<Seat>)
    requires SparesOthers(s, s', c, gone) && d in s.calls && d != c && Owns(s, d, ks)
    ensures Owns(s', d, ks)
  {
    forall k | k in ks ensures k in s'.locks && s'.locks[k] == s.locks[k] {
      assert s.locks[k].setBy == d;
      assert k !in gone;
    }
  }

  lemma SeenStays(s: State, s': State, c: nat, gone: set<Seat>, d: nat, k: Seat)
    requires SparesOthers(s, s', c, gone) && d in s.calls && d != c && k in s.locks
    requires s.locks[k].user == s.calls[d].user
    ensures k in s'.locks && s'.locks[k] == s.locks[k]
  {
    forall j | j in gone && j in s.locks ensures j != k {
      assert s.locks[j].user != s.calls[d].user;
    }
  }

  lemma OtherKeepsLocks(s: State, s': State, c: nat, gone: set<Seat>, d: nat)
    requires CallMove(s, s', c) && SparesOthers(s, s', c, gone) && d in s.calls && d != c && LocksHeld(s, d)
    ensures LocksHeld(s', d)
  {
    match s.calls[d].phase
    case Locking(rest, got, failed) => OwnedStay(s, s', c, gone, d, got);
    case RollingBack(rest) => OwnedStay(s, s', c, gone, d, rest);
    case Reading => OwnedStay(s, s', c, gone, d, s.calls[d].ids);
    case Committing => OwnedStay(s, s', c, gone, d, s.calls[d].ids);
    case Unlocking(rest, seen) =>
      if s.calls[d].kind.KHold? {
        OwnedStay(s, s', c, gone, d, rest);
      }
      if seen {
        SeenStays(s, s', c, gone, d, rest[0]);
      }
    case _ =>
  }

  lemma OthersKeepLocks(s: State, s': State, c: nat, gone: set<Seat>)
    requires AllLocksHeld(s) && CallMove(s, s', c) && SparesOthers(s, s', c, gone)
    requires c in s'.calls ==> LocksHeld(s', c)
    ensures AllLocksHeld(s')
  {
    forall d | d in s'.calls ensures d < s'.next && LocksHeld(s', d) {
      if d != c {
        OtherKeepsLocks(s, s', c, gone, d);
      }
    }
  }

  /** A lock of c's user that c deletes is no lock another call relies on. */
  lemma OwnUsersLock(s: State, s': State, c: nat, k: Seat)
    requires OneCallPerUser(s) && LockTags(s) && c in s.calls
    requires k in s.locks && s.locks[k].user == s.calls[c].user && s'.locks == s.locks - {k}
    ensures SparesOthers(s, s', c, {k})
  {
  }

  // ----- preservation: steps that leave the database alone

  lemma DatabaseKept(s: State, s': State, c: nat)
    requires OneCallPerUser(s) && HoldsOk(s) && AllRely(s) && CallMove(s, s', c)
    requires s'.rows == s.rows && s'.holds == s.holds
    requires c in s'.calls ==> RelyOk(s, s'.calls[c])
    ensures OneCallPerUser(s') && HoldsOk(s') && AllRely(s')
  {
    forall d | d in s'.calls ensures RelyOk(s', s'.calls[d]) {
      RelyFrame(s, s', s'.calls[d]);
    }
  }

  lemma RelyFrame(s: State, s': State, call: Call)
    requires s'.rows == s.rows && s'.holds == s.holds
    ensures RelyOk(s, call) <==> RelyOk(s', call)
  {
    assert forall k :: Holds(s, k, call.user) <==> Holds(s', k, call.user);
  }

  lemma SetLocksHeld(s: State, c: nat)
    requires c in s.calls && LocksHeld(s, c) && s.calls[c].phase.Locking? && s.calls[c].phase.rest != []
    ensures LocksHeld(StepCall(s, c), c)
  {
    var p := s.calls[c].phase;
    assert p.got + p.rest == (p.got + [p.rest[0]]) + p.rest[1..];
  }

  lemma SetTags(s: State, c: nat)
    requires LockTags(s) && c in s.calls && c < s.next && s.calls[c].phase.Locking? && s.calls[c].phase.rest != []
    ensures LockTags(StepCall(s, c))
  {
  }

  lemma SetKeepsInv(s: State, c: nat)
    requires Inv(s) && c in s.calls && s.calls[c].phase.Locking? && s.calls[c].phase.rest != []
    ensures Inv(StepCall(s, c))
  {
    hide HoldsOk, LocksHeld, LockTags, Owns, Holds;
    var s' := StepCall(s, c);
    SetLocksHeld(s, c);
    SetTags(s, c);
    OthersKeepLocks(s, s', c, {});
    DatabaseKept(s, s', c);
  }

  lemma LockedKeepsInv(s: State, c: nat)
    requires Inv(s) && c in s.calls && s.calls[c].phase.Locking? && s.calls[c].phase.rest == []
    ensures Inv(StepCall(s, c))
  {
    var p := s.calls[c].phase;
    assert LocksHeld(s, c);
    assert p.got + p.rest == p.got;
    OthersKeepLocks(s, StepCall(s, c), c, {});
    DatabaseKept(s, StepCall(s, c), c);
  }

  /** Deleting rest[0] of distinct keys leaves rest[1..]. */
  lemma DropHead(rest: seq<Seat>)
    requires rest != [] && Distinct(rest)
    ensures Distinct(rest[1..]) && forall k :: k in rest[1..] <==> k in rest && k != rest[0]
  {
    assert rest == [rest[0]] + rest[1..];
  }

  lemma RollbackKeepsInv(s: State, c: nat)
    requires Inv(s) && c in s.calls && s.calls[c].phase.RollingBack? && s.calls[c].phase.rest != []
    ensures Inv(StepCall(s, c))
  {
    var s' := StepCall(s, c);
    var rest := s.calls[c].phase.rest;
    assert LocksHeld(s, c);
    DropHead(rest);
    OwnUsersLock(s, s', c, rest[0]);
    OthersKeepLocks(s, s', c, {rest[0]});
    DatabaseKept(s, s', c);
  }

  lemma EndKeepsInv(s: State, c: nat)
    requires Inv(s) && c in s.calls
    ensures Inv(End(s, c))
  {
    OthersKeepLocks(s, End(s, c), c, {});
    DatabaseKept(s, End(s, c), c);
  }

  lemma ReadKeepsInv(s: State, c: nat)
    requires Inv(s) && c in s.calls && s.calls[c].phase.Reading?
    ensures Inv(StepCall(s, c))
  {
    assert LocksHeld(s, c);
    OthersKeepLocks(s, StepCall(s, c), c, {});
    DatabaseKept(s, StepCall(s, c), c);
  }

  lemma ThrowKeepsInv(s: State, c: nat)
    requires Inv(s) && c in s.calls && PastLocking(s.calls[c])
    ensures Inv(Apply(s, Throw(c)))
  {
    hide HoldsOk, LockTags;
    assert LocksHeld(s, c);
    OthersKeepLocks(s, Apply(s, Throw(c)), c, {});
    TagsKept(s, Apply(s, Throw(c)), c);
    DatabaseKept(s, Apply(s, Throw(c)), c);
  }

  lemma TagsKept(s: State, s': State, c: nat)
    requires LockTags(s) && CallMove(s, s', c) && s'.locks == s.locks
    ensures LockTags(s')
  {
  }

  lemma FindKeepsInv(s: State, c: nat)
    requires Inv(s) && c in s.calls && s.calls[c].phase.Finding?
    ensures Inv(StepCall(s, c))
  {
    assert LocksHeld(s, c) && RelyOk(s, s.calls[c]);
    OthersKeepLocks(s, StepCall(s, c), c, {});
    DatabaseKept(s, StepCall(s, c), c);
  }

  lemma GetLocksHeld(s: State, c: nat)
    requires c in s.calls && LocksHeld(s, c)
    requires s.calls[c].phase.Unlocking? && s.calls[c].phase.rest != [] && !s.calls[c].phase.seen
    ensures LocksHeld(StepCall(s, c), c)
  {
    if Distinct(s.calls[c].phase.rest) {
      DropHead(s.calls[c].phase.rest);
    }
  }

  lemma GetMoves(s: State, c: nat)
    requires c in s.calls && s.calls[c].phase.Unlocking? && s.calls[c].phase.rest != [] && !s.calls[c].phase.seen
    ensures exists p: Phase :: p.Unlocking? && StepCall(s, c) == Goto(s, c, p)
  {
  }

  lemma GetKeepsInv(s: State, c: nat)
    requires Inv(s) && c in s.calls
    requires s.calls[c].phase.Unlocking? && s.calls[c].phase.rest != [] && !s.calls[c].phase.seen
    ensures Inv(StepCall(s, c))
  {
    hide HoldsOk, LocksHeld, LockTags, Owns, Holds, StepCall;
    var s' := StepCall(s, c);
    GetMoves(s, c);
    GetLocksHeld(s, c);
    OthersKeepLocks(s, s', c, {});
    TagsKept(s, s', c);
    DatabaseKept(s, s', c);
  }

  lemma DelKeepsInv(s: State, c: nat)
    requires Inv(s) && c in s.calls && s.calls[c].phase.Unlocking? && s.calls[c].phase.rest != []
    requires s.calls[c].phase.seen
    ensures Inv(StepCall(s, c))
  {
    var s' := StepCall(s, c);
    var rest := s.calls[c].phase.rest;
    assert LocksHeld(s, c);
    if Distinct(rest) {
      DropHead(rest);
    }
    assert LocksHeld(s', c);
    OwnUsersLock(s, s', c, rest[0]);
    OthersKeepLocks(s, s', c, {rest[0]});
    DatabaseKept(s, s', c);
  }

  lemma ExpireKeepsInv(s: State, k: Seat)
    requires Inv(s) && Enabled(s, ExpireLock(k), AllHypotheses)
    ensures Inv(Apply(s, ExpireLock(k)))
  {
    var s' := Apply(s, ExpireLock(k));
    forall c | c in s'.calls ensures RelyOk(s', s'.calls[c]) && c < s'.next && LocksHeld(s', c) {
      RelyFrame(s, s', s.calls[c]);
      assert LocksHeld(s, c);
      assert !AboutToDelete(s.calls[c], k);
    }
  }

  lemma BeginKeepsInv(s: State, kind: Kind, user: User, ids: seq<Seat>)
    requires Inv(s) && Enabled(s, Begin(kind, user, ids), AllHypotheses)
    ensures Inv(Apply(s, Begin(kind, user, ids)))
  {
    var s' := Apply(s, Begin(kind, user, ids));
    assert s.next !in s.calls;
    assert [] + ids == ids;
    forall c | c in s'.calls ensures RelyOk(s', s'.calls[c]) && c < s'.next && LocksHeld(s', c) {
      RelyFrame(s, s', s'.calls[c]);
      if c != s.next {
        assert LocksHeld(s, c);
      }
    }
  }

  // ----- preservation: the two kinds of commit

  /** Open holds after the commit: the old ones, off its seats, and its own. */
  lemma HoldCommitHolds(s: State, c: nat, i: nat)
    requires Inv(s) && c in s.calls && s.calls[c].phase.Committing?
    requires i < |StepCall(s, c).holds| && StepCall(s, c).holds[i].open
    ensures var s', n := StepCall(s, c), |s.holds|;
            && s'.holds[i].key in s'.rows && s'.rows[s'.holds[i].key] == Held
            && (i < n ==> s'.holds[i] == s.holds[i] && s'.holds[i].key !in s.calls[c].ids)
            && (i >= n ==> i - n < |s.calls[c].ids| && s'.holds[i].key == s.calls[c].ids[i - n])
  {
    assert LocksHeld(s, c) && RelyOk(s, s.calls[c]);
  }

  lemma HoldCommitHeldIsOpen(s: State, c: nat, k: Seat)
    requires HoldsOk(s) && c in s.calls && s.calls[c].phase.Committing?
    requires k in StepCall(s, c).rows && StepCall(s, c).rows[k] == Held
    ensures var s' := StepCall(s, c); exists i :: 0 <= i < |s'.holds| && s'.holds[i].open && s'.holds[i].key == k
  {
    var s', ids := StepCall(s, c), s.calls[c].ids;
    if k in ids {
      var i :| 0 <= i < |ids| && ids[i] == k;
      assert s'.holds[|s.holds| + i] == HoldRow(k, s.calls[c].user, true);
    } else {
      var i :| 0 <= i < |s.holds| && s.holds[i].open && s.holds[i].key == k;
      assert s'.holds[i] == s.holds[i];
    }
  }

  lemma HoldCommitKeepsHolds(s: State, c: nat)
    requires Inv(s) && c in s.calls && s.calls[c].phase.Committing?
    ensures HoldsOk(StepCall(s, c))
  {
    hide StepCall, RelyOk, Owns;
    var s' := StepCall(s, c);
    assert LocksHeld(s, c);
    IdsDistinct(s, c);
    forall i | 0 <= i < |s'.holds| && s'.holds[i].open
      ensures s'.holds[i].key in s'.rows && s'.rows[s'.holds[i].key] == Held
    {
      HoldCommitHolds(s, c, i);
    }
    forall i, j | 0 <= i < j < |s'.holds| && s'.holds[i].open && s'.holds[j].open
      ensures s'.holds[i].key != s'.holds[j].key
    {
      HoldCommitHolds(s, c, i);
      HoldCommitHolds(s, c, j);
    }
    forall k | k in s'.rows && s'.rows[k] == Held
      ensures exists i :: 0 <= i < |s'.holds| && s'.holds[i].open && s'.holds[i].key == k
    {
      HoldCommitHeldIsOpen(s, c, k);
    }
  }

  lemma IdsDistinct(s: State, c: nat)
    requires c in s.calls && LocksHeld(s, c) && s.calls[c].phase.Committing?
    ensures Distinct(s.calls[c].ids)
  {
  }

  lemma HoldCommitKeepsRely(s: State, c: nat, d: nat)
    requires Inv(s) && c in s.calls && s.calls[c].phase.Committing? && d in s.calls && d != c
    ensures RelyOk(StepCall(s, c), s.calls[d])
  {
    var s', call := StepCall(s, c), s.calls[d];
    assert RelyOk(s, call);
    assert forall i :: 0 <= i < |s.holds| ==> s'.holds[i] == s.holds[i];
    forall k | Holds(s, k, call.user) ensures Holds(s', k, call.user) {
      var i :| 0 <= i < |s.holds| && s.holds[i] == HoldRow(k, call.user, true);
      assert s'.holds[i] == HoldRow(k, call.user, true);
    }
    if call.phase.Committing? {
      InvImpliesExclusive(s);
      assert LocksHeld(s, c) && LocksHeld(s, d);
    }
  }

  lemma HoldCommitKeepsInv(s: State, c: nat)
    requires Inv(s) && c in s.calls && s.calls[c].phase.Committing?
    ensures Inv(StepCall(s, c))
  {
    var s' := StepCall(s, c);
    OthersKeepLocks(s, s', c, {});
    HoldCommitKeepsHolds(s, c);
    forall d | d in s'.calls ensures RelyOk(s', s'.calls[d]) {
      HoldCommitKeepsRely(s, c, d);
    }
  }

  /** A release or sale commits on seats whose open hold is the caller's, and closes that hold. */
  lemma ClosedExactly(s: State, c: nat, i: nat)
    requires Inv(s) && c in s.calls && s.calls[c].phase.Closing? && i < |s.holds| && s.holds[i].open
    ensures StepCall(s, c).holds[i].open <==> s.holds[i].key !in s.calls[c].ids
  {
    var call := s.calls[c];
    assert RelyOk(s, call);
    if s.holds[i].key in call.ids {
      assert Holds(s, s.holds[i].key, call.user);
      var j :| 0 <= j < |s.holds| && s.holds[j] == HoldRow(s.holds[i].key, call.user, true);
      assert i == j;
    }
  }

  lemma CloseCommitKeepsHolds(s: State, c: nat)
    requires Inv(s) && c in s.calls && s.calls[c].phase.Closing?
    ensures HoldsOk(StepCall(s, c))
  {
    var s' := StepCall(s, c);
    forall i | 0 <= i < |s.holds| && s.holds[i].open ensures s'.holds[i].open <==> s.holds[i].key !in s.calls[c].ids {
      ClosedExactly(s, c, i);
    }
    forall k | k in s'.rows && s'.rows[k] == Held
      ensures exists i :: 0 <= i < |s'.holds| && s'.holds[i].open && s'.holds[i].key == k
    {
      var i :| 0 <= i < |s.holds| && s.holds[i].open && s.holds[i].key == k;
      assert s'.holds[i].open && s'.holds[i].key == k;
    }
  }

  lemma CloseCommitKeepsRely(s: State, c: nat, d: nat)
    requires Inv(s) && c in s.calls && s.calls[c].phase.Closing? && d in s.calls && d != c
    ensures RelyOk(StepCall(s, c), s.calls[d])
  {
    var s', mine, call := StepCall(s, c), s.calls[c], s.calls[d];
    assert RelyOk(s, call) && RelyOk(s, mine);
    forall k | Holds(s, k, call.user) ensures Holds(s', k, call.user) {
      var i :| 0 <= i < |s.holds| && s.holds[i] == HoldRow(k, call.user, true);
      assert s'.holds[i] == s.holds[i];
    }
    if call.phase.Committing? {
      forall k | k in mine.ids ensures k !in call.ids {
        assert Holds(s, k, mine.user);
      }
    }
  }

  lemma CloseCommitKeepsInv(s: State, c: nat)
    requires Inv(s) && c in s.calls && s.calls[c].phase.Closing?
    ensures Inv(StepCall(s, c))
  {
    var s' := StepCall(s, c);
    assert LocksHeld(s, c);
    OthersKeepLocks(s, s', c, {});
    CloseCommitKeepsHolds(s, c);
    forall d | d in s'.calls ensures RelyOk(s', s'.calls[d]) {
      if d != c { CloseCommitKeepsRely(s, c, d); }
    }
  }

  // ----- whole runs

  lemma {:induction false} EventKeepsInv(s: State, ev: Event)
    requires Inv(s) && Enabled(s, ev, AllHypotheses)
    ensures Inv(Apply(s, ev))
  {
    match ev
    case Begin(kind, user, ids) => BeginKeepsInv(s, kind, user, ids);
    case Throw(c) => ThrowKeepsInv(s, c);
    case Crash(c) => EndKeepsInv(s, c);
    case ExpireLock(k) => ExpireKeepsInv(s, k);
    case Step(c) =>
      match s.calls[c].phase
      case Locking(rest, _, _) => if rest == [] { LockedKeepsInv(s, c); } else { SetKeepsInv(s, c); }
      case RollingBack(rest) => if rest == [] { EndKeepsInv(s, c); } else { RollbackKeepsInv(s, c); }
      case Reading => ReadKeepsInv(s, c);
      case Committing => HoldCommitKeepsInv(s, c);
      case Finding => FindKeepsInv(s, c);
      case Closing(_) => CloseCommitKeepsInv(s, c);
      case Unlocking(rest, seen) =>
        if rest == [] {
          EndKeepsInv(s, c);
        } else if seen {
          DelKeepsInv(s, c);
        } else {
          GetKeepsInv(s, c);
        }
  }

  function Run(s: State, evs: seq<Event>): State {
    if evs == [] then s else Apply(Run(s, evs[..|evs| - 1]), evs[|evs| - 1])
  }

  ghost predicate Allowed(s: State, evs: seq<Event>, hyp: Hypotheses) {
    evs == [] || (Allowed(s, evs[..|evs| - 1], hyp) && Enabled(Run(s, evs[..|evs| - 1]), evs[|evs| - 1], hyp))
  }

  /** Nothing held, locked or running. */
  predicate Quiet(s: State) {
    s.holds == [] && s.locks == map[] && s.calls == map[] && forall k :: k in s.rows ==> s.rows[k] != Held
  }

  lemma {:induction false} RunKeepsInv(s: State, evs: seq<Event>)
    requires Inv(s) && Allowed(s, evs, AllHypotheses)
    ensures Inv(Run(s, evs))
  {
    if evs != [] {
      RunKeepsInv(s, evs[..|evs| - 1]);
      EventKeepsInv(Run(s, evs[..|evs| - 1]), evs[|evs| - 1]);
    }
  }

  /** In every interleaving: no two calls are past locking and before commit on one seat, no two open
      holds share a seat, and a commit moves each of its seats from AVAILABLE to HELD by its user. */
  lemma {:induction false} HoldsAreExclusive(s: State, evs: seq<Event>)
    requires Quiet(s) && Allowed(s, evs, AllHypotheses)
    ensures Exclusive(Run(s, evs)) && OneHoldPerSeat(Run(s, evs))
    ensures var r := Run(s, evs);
            forall c, k :: c in r.calls && r.calls[c].phase.Committing? && k in r.calls[c].ids ==>
              && k in r.rows && r.rows[k] == Available
              && StepCall(r, c).rows[k] == Held && Holds(StepCall(r, c), k, r.calls[c].user)
  {
    RunKeepsInv(s, evs);
    var r := Run(s, evs);
    InvImpliesExclusive(r);
    forall c, k | c in r.calls && r.calls[c].phase.Committing? && k in r.calls[c].ids
      ensures k in r.rows && r.rows[k] == Available && StepCall(r, c).rows[k] == Held
      ensures Holds(StepCall(r, c), k, r.calls[c].user)
    {
      assert RelyOk(r, r.calls[c]);
      var i :| 0 <= i < |r.calls[c].ids| && r.calls[c].ids[i] == k;
      assert StepCall(r, c).holds[|r.holds| + i] == HoldRow(k, r.calls[c].user, true);
    }
  }

  // ----- each hypothesis is needed

  ghost predicate Reachable(s0: State, s: State, hyp: Hypotheses) {
    exists evs :: Allowed(s0, evs, hyp) && Run(s0, evs) == s
  }

  lemma ReachNext(s0: State, s: State, ev: Event, s': State, hyp: Hypotheses)
    requires Reachable(s0, s, hyp) && Enabled(s, ev, hyp) && Apply(s, ev) == s'
    ensures Reachable(s0, s', hyp)
  {
    var evs :| Allowed(s0, evs, hyp) && Run(s0, evs) == s;
    assert (evs + [ev])[..|evs|] == evs;
    assert Allowed(s0, evs + [ev], hyp) && Run(s0, evs + [ev]) == s';
  }

  function OneSeat(st: Status, holds: seq<HoldRow>, locks: map<Seat, LockRow>, calls: map<nat, Call>,
                   next: nat): State {
    State(map[0 := st], holds, locks, calls, next)
  }

  const Start := OneSeat(Available, [], map[], map[], 0)

  lemma Locks(s0: State, s: State, u: User, hyp: Hypotheses) returns (s': State)
    requires Reachable(s0, s, hyp) && Enabled(s, Begin(KHold, u, [0]), hyp) && 0 !in s.locks
    ensures s' == s.(calls := s.calls[s.next := Call(KHold, u, [0], Locking([], [0], false))],
                     locks := s.locks[0 := LockRow(u, s.next)],
                     next := s.next + 1)
    ensures Reachable(s0, s', hyp)
  {
    hide Reachable, Holds, WriteRows, OpenHolds, CloseFound;
    var c := s.next;
    var s1 := Apply(s, Begin(KHold, u, [0]));
    ReachNext(s0, s, Begin(KHold, u, [0]), s1, hyp);
    s' := Apply(s1, Step(c));
    assert [0][1..] == [] && [] + [0] == [0];
    ReachNext(s0, s1, Step(c), s', hyp);
  }

  /** A new call of user u locks seat 0 and reads it AVAILABLE. */
  lemma LocksAndReads(s0: State, s: State, u: User, hyp: Hypotheses) returns (s': State)
    requires Reachable(s0, s, hyp) && Enabled(s, Begin(KHold, u, [0]), hyp)
    requires 0 !in s.locks && SeatsAvailable(s.rows, [0])
    ensures s' == s.(calls := s.calls[s.next := Call(KHold, u, [0], Committing)],
                     locks := s.locks[0 := LockRow(u, s.next)],
                     next := s.next + 1)
    ensures Reachable(s0, s', hyp)
  {
    hide Reachable, Holds, WriteRows, OpenHolds, CloseFound;
    var s2 := Locks(s0, s, u, hyp);
    var s3 := Goto(s2, s.next, Reading);
    ReachNext(s0, s2, Step(s.next), s3, hyp);
    s' := Goto(s3, s.next, Committing);
    ReachNext(s0, s3, Step(s.next), s', hyp);
  }

  function FoundBy(s: State, u: User): set<nat>
    requires |s.holds| == 1
  {
    if s.holds[0].user == u then {0} else {}
  }

  lemma FindingStep(s: State, c: nat, u: User)
    requires c in s.calls && s.calls[c] == Call(KRelease, u, [0], Finding) && |s.holds| == 1 && s.holds[0].open
    ensures StepCall(s, c) == s.(calls := s.calls[c := Call(KRelease, u, [0], Closing(FoundBy(s, u)))])
  {
    assert FoundBy(s, u) == set i | 0 <= i < |s.holds| && s.holds[i].open && s.holds[i].user == u;
  }

  lemma ClosingStep(s: State, c: nat, u: User)
    requires s.rows == map[0 := Held] && |s.holds| == 1 && s.holds[0].key == 0 && s.holds[0].open
    requires c in s.calls && s.calls[c] == Call(KRelease, u, [0], Closing(FoundBy(s, u)))
    ensures StepCall(s, c)
            == s.(rows := map[0 := Available], holds := [HoldRow(0, s.holds[0].user, s.holds[0].user != u)],
                                 calls := s.calls[c := Call(KRelease, u, [0], Unlocking([0], false))])
  {
    var s' := StepCall(s, c);
    assert s'.holds == [HoldRow(0, s.holds[0].user, s.holds[0].user != u)];
    assert s'.rows == map[0 := Available];
  }

  lemma ReleaseFinds(s0: State, s: State, u: User, hyp: Hypotheses) returns (s': State)
    requires Reachable(s0, s, hyp) && Enabled(s, Begin(KRelease, u, [0]), hyp) && |s.holds| == 1 && s.holds[0].open
    ensures s' == s.(calls := s.calls[s.next := Call(KRelease, u, [0], Closing(FoundBy(s, u)))], next := s.next + 1)
    ensures Reachable(s0, s', hyp)
  {
    hide Reachable, Holds, WriteRows, OpenHolds, CloseFound;
    var s1 := Apply(s, Begin(KRelease, u, [0]));
    ReachNext(s0, s, Begin(KRelease, u, [0]), s1, hyp);
    FindingStep(s1, s.next, u);
    s' := s.(calls := s.calls[s.next := Call(KRelease, u, [0], Closing(FoundBy(s, u)))], next := s.next + 1);
    assert s' == StepCall(s1, s.next);
    ReachNext(s0, s1, Step(s.next), s', hyp);
  }

  /** A new release by user u commits: seat 0 is AVAILABLE, the hold on it is closed if it was u's. */
  lemma ReleaseCommits(s0: State, s: State, u: User, hyp: Hypotheses) returns (s': State)
    requires Reachable(s0, s, hyp) && Enabled(s, Begin(KRelease, u, [0]), hyp)
    requires s.rows == map[0 := Held] && |s.holds| == 1 && s.holds[0].key == 0 && s.holds[0].open
    ensures s' == s.(rows := map[0 := Available], holds := [HoldRow(0, s.holds[0].user, s.holds[0].user != u)],
                     calls := s.calls[s.next := Call(KRelease, u, [0], Unlocking([0], false))], next := s.next + 1)
    ensures Reachable(s0, s', hyp)
  {
    hide Reachable, Holds, WriteRows, OpenHolds, CloseFound;
    var s2 := ReleaseFinds(s0, s, u, hyp);
    ClosingStep(s2, s.next, u);
    s' := s.(rows := map[0 := Available], holds := [HoldRow(0, s.holds[0].user, s.holds[0].user != u)],
             calls := s.calls[s.next := Call(KRelease, u, [0], Unlocking([0], false))], next := s.next + 1);
    assert s' == StepCall(s2, s.next);
    ReachNext(s0, s2, Step(s.next), s', hyp);
  }

  /** User 1 holds seat 0; the lock is still there. */
  lemma FirstHold(hyp: Hypotheses)
    ensures Reachable(Start, OneSeat(Held, [HoldRow(0, 1, true)], map[0 := LockRow(1, 0)], map[], 1), hyp)
  {
    assert Allowed(Start, [], hyp) && Run(Start, []) == Start;
    var s := LocksAndReads(Start, Start, 1, hyp);
    var s' := Apply(s, Step(0));
    assert s'.holds == [HoldRow(0, 1, true)];
    assert s'.calls == map[];
    assert s'.rows == map[0 := Held];
    ReachNext(Start, s, Step(0), s', hyp);
  }

  /** A lock that expires under the call that set it lets a second call through. */
  lemma {:induction false} EarlyExpiryOverlaps()
    ensures exists s :: Reachable(Start, s, AllHypotheses.(locksOutliveCalls := false)) && !Exclusive(s)
  {
    var hyp := AllHypotheses.(locksOutliveCalls := false);
    assert Allowed(Start, [], hyp) && Run(Start, []) == Start;
    var s := LocksAndReads(Start, Start, 1, hyp);
    var s1 := s.(locks := map[]);
    ReachNext(Start, s, ExpireLock(0), s1, hyp);
    var s2 := LocksAndReads(Start, s1, 2, hyp);
    assert 0 in s2.calls && 1 in s2.calls && 0 in s2.calls[0].ids && 0 in s2.calls[1].ids;
  }

  const HeldOnce := OneSeat(Held, [HoldRow(0, 1, true)], map[0 := LockRow(1, 0)], map[], 1)

  /** Call c reads a lock of its user on seat 0 and deletes it, whoever set it meanwhile. */
  lemma GetThenDel(s0: State, s: State, c: nat, u: User, hyp: Hypotheses) returns (s': State)
    requires Reachable(s0, s, hyp) && c in s.calls && s.calls[c] == Call(KRelease, u, [0], Unlocking([0], true))
    ensures s' == s.(calls := s.calls[c := Call(KRelease, u, [0], Unlocking([], false))], locks := s.locks - {0})
    ensures Reachable(s0, s', hyp)
  {
    assert [0][1..] == [];
    s' := Apply(s, Step(c));
    ReachNext(s0, s, Step(c), s', hyp);
  }

  /** Call 2 is about to commit when call 1 deletes the lock on the seat: a third call gets through. */
  lemma OverlapAfterDel(s0: State, s: State, u: User, hyp: Hypotheses)
    requires Reachable(s0, s, hyp) && s.next == 3 && SeatsAvailable(s.rows, [0]) && u != 3
    requires s.calls == map[1 := Call(KRelease, 1, [0], Unlocking([0], true)), 2 := Call(KHold, u, [0], Committing)]
    ensures exists r :: Reachable(s0, r, hyp) && !Exclusive(r)
  {
    hide Reachable, Holds, WriteRows, OpenHolds, CloseFound;
    var s' := GetThenDel(s0, s, 1, 1, hyp);
    var r := LocksAndReads(s0, s', 3, hyp);
    assert PastLocking(r.calls[2]) && PastLocking(r.calls[3]) && 0 in r.calls[2].ids && 0 in r.calls[3].ids;
  }

  /** User 1's release has committed and has just read its lock. */
  const ReadLock := OneSeat(Available, [HoldRow(0, 1, false)], map[0 := LockRow(1, 0)],
                            map[1 := Call(KRelease, 1, [0], Unlocking([0], true))], 2)

  lemma LockExpiresAfterGet(hyp: Hypotheses)
    requires !hyp.noExpiryBeforeDel
    ensures Reachable(Start, ReadLock.(locks := map[]), hyp)
  {
    hide Reachable;
    FirstHold(hyp);
    assert Holds(HeldOnce, 0, 1) by { assert HeldOnce.holds[0] == HoldRow(0, 1, true); }
    var s := ReleaseCommits(Start, HeldOnce, 1, hyp);
    ReachNext(Start, s, Step(1), ReadLock, hyp);
    ReachNext(Start, ReadLock, ExpireLock(0), ReadLock.(locks := map[]), hyp);
  }

  /** A lock that expires between a release's GET and its DEL: the DEL removes somebody else's lock. */
  lemma {:induction false} ExpiryBeforeDelOverlaps()
    ensures exists s :: Reachable(Start, s, AllHypotheses.(noExpiryBeforeDel := false)) && !Exclusive(s)
  {
    var hyp := AllHypotheses.(noExpiryBeforeDel := false);
    LockExpiresAfterGet(hyp);
    var s := LocksAndReads(Start, ReadLock.(locks := map[]), 2, hyp);
    OverlapAfterDel(Start, s, 2, hyp);
  }

  /** User 1's hold after its lock has expired. */
  const HeldUnlocked := OneSeat(Held, [HoldRow(0, 1, true)], map[], map[], 1)

  lemma LockExpires(hyp: Hypotheses)
    ensures Reachable(Start, HeldUnlocked, hyp)
  {
    FirstHold(hyp);
    ReachNext(Start, HeldOnce, ExpireLock(0), HeldUnlocked, hyp);
  }

  /** User 1's release has committed, and user 1 holds the seat again up to the commit. */
  const HeldAgain := OneSeat(Available, [HoldRow(0, 1, false)], map[0 := LockRow(1, 2)],
                             map[1 := Call(KRelease, 1, [0], Unlocking([0], false)),
                                 2 := Call(KHold, 1, [0], Committing)], 3)

  lemma HoldsAgain(hyp: Hypotheses)
    requires !hyp.oneCallPerUser
    ensures Reachable(Start, HeldAgain, hyp)
  {
    hide Reachable, WriteRows, OpenHolds, CloseFound;
    LockExpires(hyp);
    assert Holds(HeldUnlocked, 0, 1) by { assert HeldUnlocked.holds[0] == HoldRow(0, 1, true); }
    var s1 := ReleaseCommits(Start, HeldUnlocked, 1, hyp);
    var s2 := LocksAndReads(Start, s1, 1, hyp);
  }

  /** A user whose release (or whose sweep) is still running places a new hold: the release deletes the
      lock of that new hold. */
  lemma {:induction false} TwoCallsOfOneUserOverlap()
    ensures exists s :: Reachable(Start, s, AllHypotheses.(oneCallPerUser := false)) && !Exclusive(s)
  {
    hide Reachable, Holds, WriteRows, OpenHolds, CloseFound;
    var hyp := AllHypotheses.(oneCallPerUser := false);
    HoldsAgain(hyp);
    var s := Goto(HeldAgain, 1, Unlocking([0], true));
    ReachNext(Start, HeldAgain, Step(1), s, hyp);
    OverlapAfterDel(Start, s, 1, hyp);
  }

  lemma Commits(s0: State, s: State, c: nat, hyp: Hypotheses) returns (s': State)
    requires Reachable(s0, s, hyp) && c in s.calls && s.calls[c].phase.Committing? && s.calls[c].ids == [0]
    ensures Reachable(s0, s', hyp) && s'.holds == s.holds + [HoldRow(0, s.calls[c].user, true)]
  {
    s' := Apply(s, Step(c));
    ReachNext(s0, s, Step(c), s', hyp);
  }

  /** User 2, who holds nothing, has released user 1's seat. */
  const Freed := OneSeat(Available, [HoldRow(0, 1, true)], map[],
      map[1 := Call(KRelease, 2, [0], Unlocking([0], false))], 2)

  lemma StrangerReleases(hyp: Hypotheses)
    requires !hyp.holdersOnly
    ensures Reachable(Start, Freed, hyp)
  {
    LockExpires(hyp);
    var s := ReleaseCommits(Start, HeldUnlocked, 2, hyp);
  }

  /** A release by somebody who holds nothing frees a seat whose hold stays open. */
  lemma {:induction false} StrangersReleaseDoublesHold()
    ensures exists s :: Reachable(Start, s, AllHypotheses.(holdersOnly := false)) && !OneHoldPerSeat(s)
  {
    var hyp := AllHypotheses.(holdersOnly := false);
    StrangerReleases(hyp);
    var s := LocksAndReads(Start, Freed, 3, hyp);
    var s' := Commits(Start, s, 2, hyp);
    assert s'.holds[0] == HoldRow(0, 1, true) && s'.holds[1] == HoldRow(0, 3, true);
  }
}
