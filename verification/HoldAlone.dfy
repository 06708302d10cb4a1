/** A hold, release or sale call that no other call interrupts, one step after the other: the race of
    HoldRace comes to what the whole operations do. */
module HoldAlone {
  import opened Basics
  import opened SeatStore
  import opened HoldRace

  /** n steps of call c. */
  function Times(s: State, c: nat, n: nat): State
    decreases n
  {
    if n == 0 then s else Times(HoldRace.Apply(s, Step(c)), c, n - 1)
  }

  lemma {:induction false} TimesAfter(s: State, c: nat, m: nat, n: nat)
    ensures Times(s, c, m + n) == Times(Times(s, c, m), c, n)
    decreases m
  {
    hide Apply;
    if m > 0 {
      TimesAfter(Apply(s, Step(c)), c, m - 1, n);
    }
  }

  lemma Once(s: State, c: nat)
    ensures Times(s, c, 1) == Apply(s, Step(c))
  {
    hide Apply;
    assert Times(Apply(s, Step(c)), c, 0) == Apply(s, Step(c));
  }

  /** Distinct seats without a lock. */
  predicate Free(locks: map<Seat, LockRow>, ids: seq<Seat>) {
    Distinct(ids) && forall i :: 0 <= i < |ids| ==> ids[i] !in locks
  }

  /** Call c is in this phase. */
  predicate In(s: State, c: nat, call: Call, p: Phase) {
    c in s.calls && s.calls[c] == call.(phase := p)
  }

  /** s' is s but for the locks and the phase of call c. */
  predicate Moved(s: State, s': State, c: nat, call: Call, p: Phase) {
    c in s.calls && s' == s.(locks := s'.locks, calls := s.calls[c := call.(phase := p)])
  }

  // ----- locking

  /** The locks without those that were got. */
  function Without(locks: map<Seat, LockRow>, got: seq<Seat>): map<Seat, LockRow> {
    map k | k in locks && k !in got :: locks[k]
  }

  lemma SetStep(s: State, c: nat, call: Call, rest: seq<Seat>, got: seq<Seat>, failed: bool)
    requires In(s, c, call, Locking(rest, got, failed)) && rest != []
    ensures var taken, s' := rest[0] in s.locks, Apply(s, Step(c));
            && Moved(s, s', c, call, if taken then Locking(rest[1..], got, true)
                                     else Locking(rest[1..], got + [rest[0]], failed))
            && s'.locks == if taken then s.locks else s.locks[rest[0] := LockRow(call.user, c)]
  {
  }

  lemma FreeNext(locks: map<Seat, LockRow>, rest: seq<Seat>, l: LockRow)
    requires rest != []
    ensures rest[0] !in locks ==> (Free(locks, rest) <==> Free(locks[rest[0] := l], rest[1..]))
    ensures rest[0] in locks ==> !Free(locks, rest)
  {
    var tail := rest[1..];
    assert rest == [rest[0]] + tail;
    if rest[0] !in locks && Free(locks[rest[0] := l], tail) {
      forall i | 0 <= i < |rest| ensures rest[i] !in locks && (i > 0 ==> rest[i] != rest[0]) {
        if i > 0 { assert rest[i] == tail[i - 1]; }
      }
      forall i, j | 0 <= i < j < |rest| ensures rest[i] != rest[j] {
        assert rest[j] == tail[j - 1];
        if i > 0 { assert rest[i] == tail[i - 1]; }
      }
    }
    if Free(locks, rest) {
      forall i | 0 <= i < |tail| ensures tail[i] !in locks[rest[0] := l] {
        assert rest[i + 1] == tail[i];
      }
    }
  }

  /** The locks after SET NX of these seats, all of which are free. */
  function Locked(locks: map<Seat, LockRow>, ids: seq<Seat>, l: LockRow): map<Seat, LockRow> {
    map k | k in locks.Keys + (set j | j in ids) :: if k in ids then l else locks[k]
  }

  /** The loop of SET NX: nothing fails iff the seats are free; the locks that were got are new, and taking them
      away again leaves the old ones. */
  lemma {:induction false} LockLoop(s: State, c: nat, call: Call, rest: seq<Seat>, got: seq<Seat>, failed: bool)
    returns (got': seq<Seat>, failed': bool)
    requires In(s, c, call, Locking(rest, got, failed)) && forall k :: k in got ==> k in s.locks
    ensures var s' := Times(s, c, |rest|);
            && Moved(s, s', c, call, Locking([], got', failed'))
            && (failed' <==> failed || !Free(s.locks, rest))
            && Without(s'.locks, got') == Without(s.locks, got)
            && (Free(s.locks, rest) ==> got' == got + rest && s'.locks == Locked(s.locks, rest, LockRow(call.user, c)))
    decreases |rest|
  {
    hide Apply;
    if rest == [] {
      got', failed' := got, failed;
      assert got + rest == got && Locked(s.locks, [], LockRow(call.user, c)) == s.locks;
      assert s.calls[c := s.calls[c]] == s.calls;
    } else {
      var l := LockRow(call.user, c);
      SetStep(s, c, call, rest, got, failed);
      FreeNext(s.locks, rest, l);
      var s1 := Apply(s, Step(c));
      if rest[0] in s.locks {
        got', failed' := LockLoop(s1, c, call, rest[1..], got, true);
      } else {
        got', failed' := LockLoop(s1, c, call, rest[1..], got + [rest[0]], failed);
        assert Without(s1.locks, got + [rest[0]]) == Without(s.locks, got);
        assert got + rest == got + [rest[0]] + rest[1..];
        if Free(s.locks, rest) { LockedNext(s.locks, rest, l); }
      }
    }
  }

  lemma LockedNext(locks: map<Seat, LockRow>, rest: seq<Seat>, l: LockRow)
    requires rest != [] && Free(locks, rest)
    ensures Locked(locks[rest[0] := l], rest[1..], l) == Locked(locks, rest, l)
  {
    assert rest == [rest[0]] + rest[1..];
  }

  // ----- taking locks away again

  lemma {:induction false} RollBackLoop(s: State, c: nat, call: Call, rest: seq<Seat>)
    requires In(s, c, call, RollingBack(rest))
    ensures Times(s, c, |rest| + 1) == s.(locks := Without(s.locks, rest), calls := s.calls - {c})
    decreases |rest|
  {
    hide Apply;
    RollBackStep(s, c, call, rest);
    if rest == [] {
      Once(s, c);
      assert Without(s.locks, []) == s.locks;
    } else {
      var s1 := Apply(s, Step(c));
      RollBackLoop(s1, c, call, rest[1..]);
      assert rest == [rest[0]] + rest[1..];
      assert Without(s1.locks, rest[1..]) == Without(s.locks, rest);
      assert s1.calls - {c} == s.calls - {c};
    }
  }

  lemma RollBackStep(s: State, c: nat, call: Call, rest: seq<Seat>)
    requires In(s, c, call, RollingBack(rest))
    ensures rest == [] ==> Apply(s, Step(c)) == s.(calls := s.calls - {c})
    ensures rest != [] ==> Moved(s, Apply(s, Step(c)), c, call, RollingBack(rest[1..]))
                           && Apply(s, Step(c)).locks == s.locks - {rest[0]}
  {
  }

  /** The locks without those of this user on these seats. */
  function Unlocked(locks: map<Seat, LockRow>, ids: seq<Seat>, u: User): map<Seat, LockRow> {
    map k | k in locks && !(k in ids && locks[k].user == u) :: locks[k]
  }

  lemma UnlockStep(s: State, c: nat, call: Call, rest: seq<Seat>)
    requires In(s, c, call, Unlocking(rest, false))
    ensures rest == [] ==> Apply(s, Step(c)) == s.(calls := s.calls - {c})
    ensures rest != [] ==>
              var mine, s' := rest[0] in s.locks && s.locks[rest[0]].user == call.user, Apply(s, Step(c));
              && Moved(s, s', c, call, if mine then Unlocking(rest, true) else Unlocking(rest[1..], false))
              && s'.locks == s.locks
  {
  }

  lemma DelStep(s: State, c: nat, call: Call, rest: seq<Seat>)
    requires In(s, c, call, Unlocking(rest, true)) && rest != []
    ensures Moved(s, Apply(s, Step(c)), c, call, Unlocking(rest[1..], false))
    ensures Apply(s, Step(c)).locks == s.locks - {rest[0]}
  {
  }

  /** The loop of GET and DEL. */
  lemma {:induction false} UnlockLoop(s: State, c: nat, call: Call, rest: seq<Seat>) returns (n: nat)
    requires In(s, c, call, Unlocking(rest, false))
    ensures Times(s, c, n) == s.(locks := Unlocked(s.locks, rest, call.user), calls := s.calls - {c})
    decreases |rest|
  {
    hide Apply;
    UnlockStep(s, c, call, rest);
    var s1 := Apply(s, Step(c));
    if rest == [] {
      Once(s, c);
      assert Unlocked(s.locks, [], call.user) == s.locks;
      n := 1;
    } else {
      assert rest == [rest[0]] + rest[1..];
      if rest[0] in s.locks && s.locks[rest[0]].user == call.user {
        DelStep(s1, c, call, rest);
        var s2 := Apply(s1, Step(c));
        var m := UnlockLoop(s2, c, call, rest[1..]);
        assert Unlocked(s2.locks, rest[1..], call.user) == Unlocked(s.locks, rest, call.user);
        assert s2.calls - {c} == s.calls - {c};
        assert Times(s1, c, m + 1) == Times(s2, c, m);
        n := m + 2;
      } else {
        var m := UnlockLoop(s1, c, call, rest[1..]);
        assert Unlocked(s1.locks, rest[1..], call.user) == Unlocked(s.locks, rest, call.user);
        assert s1.calls - {c} == s.calls - {c};
        n := m + 1;
      }
    }
  }

  // ----- whole calls

  /** Exactly these seats get the status. */
  ghost predicate OnlyRows(rows: map<Seat, Status>, rows': map<Seat, Status>, ids: seq<Seat>, status: Status) {
    && (forall k :: k in rows' <==> k in rows)
    && (forall k :: k in rows ==> rows'[k] == if k in ids then status else rows[k])
  }

  lemma WriteRowsIs(rows: map<Seat, Status>, ids: seq<Seat>, status: Status)
    ensures OnlyRows(rows, WriteRows(rows, ids, status), ids, status)
  {
  }

  /** A hold of free, AVAILABLE seats leaves them HELD, with an open hold and a lock of the user on each, and
      nothing else changed. */
  lemma {:induction false} HoldSucceeds(s: State, c: nat, u: User, ids: seq<Seat>) returns (n: nat)
    requires c in s.calls && s.calls[c] == Call(KHold, u, ids, Locking(ids, [], false))
    requires Free(s.locks, ids) && forall k :: k in ids ==> k in s.rows && s.rows[k] == Available
    ensures var s' := Times(s, c, n);
            && OnlyRows(s.rows, s'.rows, ids, Held)
            && |s'.holds| == |s.holds| + |ids| && s'.holds[..|s.holds|] == s.holds
            && (forall i :: 0 <= i < |ids| ==> s'.holds[|s.holds| + i] == HoldRow(ids[i], u, true))
            && (forall k :: k in s'.locks <==> k in s.locks || k in ids)
            && (forall k :: k in s'.locks ==> s'.locks[k] == if k in ids then LockRow(u, c) else s.locks[k])
            && s'.calls == s.calls - {c}
  {
    hide Apply, WriteRows, Times;
    var call := s.calls[c];
    var got, failed := LockLoop(s, c, call, ids, [], false);
    var s1 := Times(s, c, |ids|);
    assert [] + ids == ids;
    CommitSteps(s1, c, call, ids);
    n := |ids| + 3;
    TimesAfter(s, c, |ids|, 3);
    WriteRowsIs(s.rows, ids, Held);
    var s' := Times(s1, c, 3);
    assert s'.holds[..|s.holds|] == s.holds;
    assert s1.calls - {c} == s.calls - {c};
  }

  lemma CommitSteps(s: State, c: nat, call: Call, ids: seq<Seat>)
    requires In(s, c, call, Locking([], ids, false)) && call.ids == ids && SeatsAvailable(s.rows, ids)
    ensures Times(s, c, 3) == s.(rows := WriteRows(s.rows, ids, Held), holds := s.holds + OpenHolds(ids, call.user),
                                 calls := s.calls - {c})
  {
    hide WriteRows, SeatsAvailable, Times;
    var s1 := Goto(s, c, Reading);
    var s2 := Goto(s1, c, Committing);
    Once(s, c);
    Once(s1, c);
    Once(s2, c);
    TimesAfter(s, c, 1, 1);
    TimesAfter(s, c, 2, 1);
    assert s2.calls - {c} == s.calls - {c};
  }

  /** One that finds a lock, or names a seat twice, leaves everything as it was. */
  lemma {:induction false} HoldRefused(s: State, c: nat, u: User, ids: seq<Seat>) returns (n: nat)
    requires c in s.calls && s.calls[c] == Call(KHold, u, ids, Locking(ids, [], false)) && !Free(s.locks, ids)
    ensures Times(s, c, n) == s.(calls := s.calls - {c})
  {
    hide Apply, Times;
    var call := s.calls[c];
    var got, failed := LockLoop(s, c, call, ids, [], false);
    var s1 := Times(s, c, |ids|);
    var s2 := Goto(s1, c, RollingBack(got));
    Once(s1, c);
    RollBackStarts(s1, c, call, got);
    RollBackLoop(s2, c, call, got);
    TimesAfter(s1, c, 1, |got| + 1);
    TimesAfter(s, c, |ids|, |got| + 2);
    n := |ids| + (|got| + 2);
    assert Without(s.locks, []) == s.locks;
    assert s2.calls - {c} == s.calls - {c};
  }

  lemma RollBackStarts(s: State, c: nat, call: Call, got: seq<Seat>)
    requires In(s, c, call, Locking([], got, true))
    ensures Apply(s, Step(c)) == Goto(s, c, RollingBack(got))
  {
  }

  /** One that gets its locks and finds a seat that is not AVAILABLE, or not there, gives them back. */
  lemma {:induction false} HoldNotAvailable(s: State, c: nat, u: User, ids: seq<Seat>) returns (n: nat)
    requires c in s.calls && s.calls[c] == Call(KHold, u, ids, Locking(ids, [], false)) && Free(s.locks, ids)
    requires exists k :: k in ids && (k in s.rows ==> s.rows[k] != Available)
    ensures Times(s, c, n) == s.(calls := s.calls - {c})
  {
    hide Apply, Times;
    var call := s.calls[c];
    var got, failed := LockLoop(s, c, call, ids, [], false);
    var s1 := Times(s, c, |ids|);
    assert [] + ids == ids;
    var s2 := Goto(s1, c, Reading);
    var s3 := Goto(s2, c, Unlocking(ids, false));
    ReadingRefuses(s1, c, call, ids);
    Once(s1, c);
    Once(s2, c);
    TimesAfter(s1, c, 1, 1);
    var m := UnlockLoop(s3, c, call, ids);
    TimesAfter(s1, c, 2, m);
    TimesAfter(s, c, |ids|, 2 + m);
    n := |ids| + (2 + m);
    UnlockedAgain(s.locks, ids, LockRow(u, c));
    assert s3.calls - {c} == s.calls - {c};
  }

  lemma UnlockedAgain(locks: map<Seat, LockRow>, ids: seq<Seat>, l: LockRow)
    requires Free(locks, ids)
    ensures Unlocked(Locked(locks, ids, l), ids, l.user) == locks
  {
    var back := Unlocked(Locked(locks, ids, l), ids, l.user);
    forall k ensures k in back <==> k in locks {
      assert k in ids ==> k !in locks;
    }
  }

  lemma ReadingRefuses(s: State, c: nat, call: Call, ids: seq<Seat>)
    requires In(s, c, call, Locking([], ids, false)) && call.ids == ids && !SeatsAvailable(s.rows, ids)
    ensures Apply(s, Step(c)) == Goto(s, c, Reading)
    ensures Apply(Goto(s, c, Reading), Step(c)) == Goto(Goto(s, c, Reading), c, Unlocking(ids, false))
  {
    hide SeatsAvailable;
  }

  /** A release or sale writes the status on its seats, closes the user's open holds on them, deletes the
      user's locks on them, and changes nothing else. */
  lemma {:induction false} ReleaseOrSale(s: State, c: nat, kind: Kind, u: User, ids: seq<Seat>) returns (n: nat)
    requires c in s.calls && s.calls[c] == Call(kind, u, ids, Finding) && !kind.KHold?
    ensures var s' := Times(s, c, n);
            && OnlyRows(s.rows, s'.rows, ids, if kind.KSell? then Sold else Available)
            && |s'.holds| == |s.holds|
            && (forall i :: 0 <= i < |s.holds| ==>
                 var h := s.holds[i];
                 s'.holds[i] == if h.open && h.user == u && h.key in ids then HoldRow(h.key, u, false) else h)
            && (forall k :: k in s'.locks <==> k in s.locks && !(k in ids && s.locks[k].user == u))
            && (forall k :: k in s'.locks ==> s'.locks[k] == s.locks[k])
            && s'.calls == s.calls - {c}
  {
    hide Apply, Times, WriteRows, CloseFound;
    var call := s.calls[c];
    var s2 := CloseSteps(s, c, call, ids);
    var m := UnlockLoop(s2, c, call, ids);
    TimesAfter(s, c, 2, m);
    n := 2 + m;
    WriteRowsIs(s.rows, ids, if kind.KSell? then Sold else Available);
    assert s2.calls - {c} == s.calls - {c};
  }

  lemma CloseSteps(s: State, c: nat, call: Call, ids: seq<Seat>) returns (s2: State)
    requires In(s, c, call, Finding) && call.ids == ids
    ensures Times(s, c, 2) == s2 && In(s2, c, call, Unlocking(ids, false))
    ensures s2 == s.(rows := WriteRows(s.rows, ids, if call.kind.KSell? then Sold else Available),
                     holds := s2.holds, calls := s.calls[c := call.(phase := Unlocking(ids, false))])
    ensures |s2.holds| == |s.holds|
    ensures forall i :: 0 <= i < |s.holds| ==>
              var h := s.holds[i];
              s2.holds[i] == if h.open && h.user == call.user
                  && h.key in ids then HoldRow(h.key, call.user, false) else h
  {
    hide WriteRows, Times;
    var found := set i | 0 <= i < |s.holds| && s.holds[i].open && s.holds[i].user == call.user;
    var s1 := Goto(s, c, Closing(found));
    s2 := Apply(s1, Step(c));
    Once(s, c);
    Once(s1, c);
    TimesAfter(s, c, 1, 1);
  }
}
