/** The expiry worker: groups expired holds by a string key built from event and user, then releases
    each group.  The sweep is exact if and only if no two groups share a key. */
module ExpirySweep {
  import opened Basics
  import opened SeatStore
  import opened SeatInvariant
  import HoldService

  predicate IsExpired(h: Hold, now: int) {
    h.released.None? && h.expiresAt < now
  }

  function Expired(holds: seq<Hold>, now: int): (hs: seq<Hold>)
    ensures forall h :: h in hs <==> h in holds && IsExpired(h, now)
  {
    if holds == [] then [] else
      var n := |holds| - 1;
      var rest := Expired(holds[..n], now);
      assert holds == holds[..n] + [holds[n]];
      if IsExpired(holds[n], now) then rest + [holds[n]] else rest
  }

  function ExpiredKeys(st: Store): set<SeatKey> {
    set h | h in st.holds && IsExpired(h, st.now) :: h.key
  }

  // ----- grouping

  function GroupKey(event: Id, user: Id): string {
    event + ":" + user
  }

  function KeyOf(h: Hold): string {
    GroupKey(h.key.event, h.user)
  }

  /** One entry of the insertion-ordered `Map<string, SeatHold[]>`. */
  datatype Group = Group(key: string, members: seq<Hold>)

  function IndexOf(gs: seq<Group>, key: string): (i: nat)
    ensures i <= |gs|
    ensures i < |gs| ==> gs[i].key == key
    ensures i == |gs| ==> forall j :: 0 <= j < |gs| ==> gs[j].key != key
  {
    if gs == [] then 0 else if gs[0].key == key then 0 else
      var i := IndexOf(gs[1..], key);
      assert i == |gs| - 1 ==> forall j :: 1 <= j < |gs| ==> gs[j] == gs[1..][j - 1];
      1 + i
  }

  function Insert(gs: seq<Group>, h: Hold): seq<Group> {
    var i := IndexOf(gs, KeyOf(h));
    if i == |gs| then gs + [Group(KeyOf(h), [h])] else gs[i := gs[i].(members := gs[i].members + [h])]
  }

  function GroupAll(hs: seq<Hold>): seq<Group> {
    if hs == [] then [] else Insert(GroupAll(hs[..|hs| - 1]), hs[|hs| - 1])
  }

  /** The groups partition the holds: every hold is in the one group that carries its key. */
  ghost predicate Partitions(gs: seq<Group>, hs: seq<Hold>) {
    && (forall i, j :: 0 <= i < j < |gs| ==> gs[i].key != gs[j].key)
    && (forall i :: 0 <= i < |gs| ==> gs[i].members != [])
    && (forall i, m :: 0 <= i < |gs| && m in gs[i].members ==> m in hs && KeyOf(m) == gs[i].key)
    && (forall h :: h in hs ==> exists i :: 0 <= i < |gs| && h in gs[i].members)
  }

  lemma InsertPartitions(gs: seq<Group>, hs: seq<Hold>, h: Hold)
    requires Partitions(gs, hs)
    ensures Partitions(Insert(gs, h), hs + [h])
  {
    var gs' := Insert(gs, h);
    var at := IndexOf(gs, KeyOf(h));
    assert h in gs'[at].members;
    forall g | g in hs + [h] ensures exists i :: 0 <= i < |gs'| && g in gs'[i].members {
      if g in hs {
        var i :| 0 <= i < |gs| && g in gs[i].members;
        assert g in gs'[i].members;
      }
    }
  }

  lemma {:induction false} GroupAllPartitions(hs: seq<Hold>)
    ensures Partitions(GroupAll(hs), hs)
  {
    if hs != [] {
      var n := |hs| - 1;
      GroupAllPartitions(hs[..n]);
      InsertPartitions(GroupAll(hs[..n]), hs[..n], hs[n]);
      assert hs == hs[..n] + [hs[n]];
    }
  }

  predicate NoCollision(hs: seq<Hold>) {
    forall a, b :: a in hs && b in hs && KeyOf(a) == KeyOf(b) ==> a.key.event == b.key.event && a.user == b.user
  }

  lemma FirstColon(e: Id, u: Id)
    requires ':' !in e
    ensures GroupKey(e, u)[|e|] == ':' && forall i :: 0 <= i < |e| ==> GroupKey(e, u)[i] != ':'
  {
    forall i | 0 <= i < |e| ensures GroupKey(e, u)[i] != ':' {
      assert GroupKey(e, u)[i] == e[i] && e[i] in e;
    }
  }

  /** Event ids without ':' cannot collide; with one they can. */
  lemma {:induction false} ColonFreeKeys(e: Id, u: Id, e': Id, u': Id)
    requires ':' !in e && ':' !in e'
    ensures GroupKey(e, u) == GroupKey(e', u') <==> e == e' && u == u'
  {
    var k, k' := GroupKey(e, u), GroupKey(e', u');
    FirstColon(e, u);
    FirstColon(e', u');
    if k == k' {
      assert |e| == |e'|;
      assert k[..|e|] == e && k'[..|e'|] == e';
      assert k[|e| + 1..] == u && k'[|e'| + 1..] == u';
    }
  }

  lemma KeysWithColonCollide()
    ensures GroupKey("a", "b:c") == GroupKey("a:b", "c") && "a" != "a:b"
  {
    assert |"a"| != |"a:b"|;
  }

  // ----- releasing

  function SeatsOf(hs: seq<Hold>): (ids: seq<Id>)
    ensures |ids| == |hs|
    ensures forall i :: 0 <= i < |hs| ==> ids[i] == hs[i].key.seat
  {
    seq(|hs|, i requires 0 <= i < |hs| => hs[i].key.seat)
  }

  function ReleaseGroup(st: Store, g: Group, reach: Reach): Store {
    if g.members == [] then st
    else ReleaseUpTo(st, g.members[0].key.event, SeatsOf(g.members), g.members[0].user, Timeout, reach)
  }

  /** The loop over the groups; `reaches(i)` says how far the release of group i gets. */
  function ReleaseGroups(st: Store, gs: seq<Group>, reaches: nat -> Reach): Store {
    if gs == [] then st else
      var n := |gs| - 1;
      ReleaseGroup(ReleaseGroups(st, gs[..n], reaches), gs[n], reaches(n))
  }

  function SweepUpTo(st: Store, reaches: nat -> Reach): Store {
    ReleaseGroups(st, GroupAll(Expired(st.holds, st.now)), reaches)
  }

  /** A sweep in which nothing throws. */
  function Sweep(st: Store): Store {
    SweepUpTo(st, (i: nat) => Finished)
  }

  function Expire(h: Hold, ks: set<SeatKey>): Hold {
    if h.released.None? && h.key in ks then h.(released := Some(Timeout)) else h
  }

  function ExpireAll(holds: seq<Hold>, ks: set<SeatKey>): (r: seq<Hold>)
    ensures |r| == |holds|
    ensures forall i :: 0 <= i < |holds| ==> r[i] == Expire(holds[i], ks)
  {
    seq(|holds|, i requires 0 <= i < |holds| => Expire(holds[i], ks))
  }

  /** The open holds on ks are closed, their seats freed; every other seat, hold and lock is as before. */
  function SweptTo(st: Store, ks: set<SeatKey>): Store {
    st.(rows := Restatus(st.rows, ks, Available), holds := ExpireAll(st.holds, ks),
        avail := PutAvail(st.avail, ks, Available))
  }

  /** The same for ks, but only the cached fields of `cached` are written. */
  function SweptPartly(st: Store, ks: set<SeatKey>, cached: set<SeatKey>): Store {
    SweptTo(st, ks).(avail := PutAvail(st.avail, cached, Available))
  }

  /** A group of expired holds of one user and event. */
  ghost predicate OneOwner(st: Store, g: Group) {
    && g.members != []
    && forall m :: m in g.members ==>
       m in st.holds && IsExpired(m, st.now) && m.key.event == g.members[0].key.event && m.user == g.members[0].user
  }

  function MemberKeys(g: Group): set<SeatKey> {
    set m | m in g.members :: m.key
  }

  lemma GroupSeatKeys(st: Store, g: Group)
    requires OneOwner(st, g)
    ensures Keys(g.members[0].key.event, SeatsOf(g.members)) == MemberKeys(g)
  {
    var e, ids := g.members[0].key.event, SeatsOf(g.members);
    forall k | k in MemberKeys(g) ensures k in Keys(e, ids) {
      var m :| m in g.members && m.key == k;
      var i :| 0 <= i < |g.members| && g.members[i] == m;
      assert ids[i] in ids;
    }
    forall k | k in Keys(e, ids) ensures k in MemberKeys(g) {
      var s :| s in ids && k == SeatKey(e, s);
      var i :| 0 <= i < |ids| && ids[i] == s;
      assert g.members[i] in g.members && g.members[i].key == k;
    }
  }

  /** No live lock remains on a seat whose open hold has expired. */
  lemma ExpiredSeatsUnlocked(st: Store, h: Hold)
    requires Inv(st) && h in st.holds && IsExpired(h, st.now)
    ensures h.key !in st.locks
  {
    forall i | 0 <= i < |st.holds| && Open(st.holds[i], h.key) ensures st.holds[i].expiresAt < st.now {
      assert st.holds[i] == h;
    }
  }

  lemma GroupClosesItsHolds(st: Store, ks: set<SeatKey>, g: Group)
    requires OneOpenHold(st.holds) && OneOwner(st, g)
    ensures CloseHolds(ExpireAll(st.holds, ks), MemberKeys(g), g.members[0].user, Timeout)
            == ExpireAll(st.holds, ks + MemberKeys(g))
  {
    var ks', u := MemberKeys(g), g.members[0].user;
    forall i | 0 <= i < |st.holds|
      ensures CloseHold(Expire(st.holds[i], ks), ks', u, Timeout) == Expire(st.holds[i], ks + ks')
    {
      if st.holds[i].released.None? && st.holds[i].key in ks' {
        var m :| m in g.members && m.key == st.holds[i].key;
        var j :| 0 <= j < |st.holds| && st.holds[j] == m;
        assert i == j;
      }
    }
  }

  lemma GroupFindsNoLocks(st: Store, g: Group)
    requires Inv(st) && OneOwner(st, g)
    ensures DropLocks(st.locks, MemberKeys(g), g.members[0].user) == st.locks
  {
    forall k | k in MemberKeys(g) ensures k !in st.locks {
      var m :| m in g.members && m.key == k;
      ExpiredSeatsUnlocked(st, m);
    }
  }

  lemma GroupReleasedExactly(st: Store, ks: set<SeatKey>, cached: set<SeatKey>, g: Group, reach: Reach)
    requires Inv(st) && OneOwner(st, g)
    ensures ReleaseGroup(SweptPartly(st, ks, cached), g, reach)
            == SweptPartly(st, ks + IfThen(!reach.RolledBack?, g), cached + IfThen(reach.Finished?, g))
  {
    hide Inv, OneOwner;
    NotEmpty(st, g);
    GroupSeatKeys(st, g);
    GroupHolds(st, ks, g);
    GroupFindsNoLocks(st, g);
    OverwritesMerge(st, ks, MemberKeys(g));
    OverwritesMerge(st, cached, MemberKeys(g));
    assert ks + {} == ks && cached + {} == cached;
  }

  lemma NotEmpty(st: Store, g: Group)
    requires OneOwner(st, g)
    ensures g.members != []
  {
  }

  lemma GroupHolds(st: Store, ks: set<SeatKey>, g: Group)
    requires Inv(st) && OneOwner(st, g)
    ensures g.members != []
    ensures CloseHolds(ExpireAll(st.holds, ks), MemberKeys(g), g.members[0].user, Timeout)
            == ExpireAll(st.holds, ks + MemberKeys(g))
  {
    GroupClosesItsHolds(st, ks, g);
  }

  lemma OverwritesMerge(st: Store, ks: set<SeatKey>, ks': set<SeatKey>)
    ensures Restatus(Restatus(st.rows, ks, Available), ks', Available) == Restatus(st.rows, ks + ks', Available)
    ensures PutAvail(PutAvail(st.avail, ks, Available), ks', Available) == PutAvail(st.avail, ks + ks', Available)
  {
  }

  function IfThen(c: bool, g: Group): set<SeatKey> {
    if c then MemberKeys(g) else {}
  }

  /** The seats of the groups whose release was committed, and of those whose release came to its end. */
  function CommittedKeys(gs: seq<Group>, reaches: nat -> Reach): set<SeatKey> {
    if gs == [] then {} else
      var n := |gs| - 1;
      CommittedKeys(gs[..n], reaches) + IfThen(!reaches(n).RolledBack?, gs[n])
  }

  function FinishedKeys(gs: seq<Group>, reaches: nat -> Reach): set<SeatKey> {
    if gs == [] then {} else
      var n := |gs| - 1;
      FinishedKeys(gs[..n], reaches) + IfThen(reaches(n).Finished?, gs[n])
  }

  lemma {:induction false} GroupsReleasedExactly(st: Store, gs: seq<Group>, reaches: nat -> Reach)
    requires Inv(st) && forall i :: 0 <= i < |gs| ==> OneOwner(st, gs[i])
    ensures ReleaseGroups(st, gs, reaches) == SweptPartly(st, CommittedKeys(gs, reaches), FinishedKeys(gs, reaches))
  {
    hide Inv, OneOwner, ReleaseGroup;
    if gs == [] {
      assert ExpireAll(st.holds, {}) == st.holds;
      assert SweptPartly(st, {}, {}) == st;
    } else {
      var n := |gs| - 1;
      GroupsReleasedExactly(st, gs[..n], reaches);
      GroupReleasedExactly(st, CommittedKeys(gs[..n], reaches), FinishedKeys(gs[..n], reaches), gs[n], reaches(n));
    }
  }

  function AllKeys(gs: seq<Group>): set<SeatKey> {
    set i, m | 0 <= i < |gs| && m in gs[i].members :: m.key
  }

  lemma AllKeysSnoc(gs: seq<Group>)
    requires gs != []
    ensures AllKeys(gs) == AllKeys(gs[..|gs| - 1]) + MemberKeys(gs[|gs| - 1])
  {
    var n := |gs| - 1;
    forall k | k in AllKeys(gs) ensures k in AllKeys(gs[..n]) + MemberKeys(gs[n]) {
      var i, m :| 0 <= i < |gs| && m in gs[i].members && m.key == k;
      if i < n { assert m in gs[..n][i].members; }
    }
    forall k | k in AllKeys(gs[..n]) ensures k in AllKeys(gs) {
      var i, m :| 0 <= i < n && m in gs[..n][i].members && m.key == k;
      assert m in gs[i].members;
    }
    forall k | k in MemberKeys(gs[n]) ensures k in AllKeys(gs) {
      var m :| m in gs[n].members && m.key == k;
    }
  }

  lemma {:induction false} KeysReached(gs: seq<Group>, reaches: nat -> Reach)
    ensures FinishedKeys(gs, reaches) <= CommittedKeys(gs, reaches) <= AllKeys(gs)
    ensures (forall i: nat :: i < |gs| ==> reaches(i) == Finished) ==> FinishedKeys(gs, reaches) == AllKeys(gs)
  {
    hide AllKeys, MemberKeys;
    if gs == [] {
      NoKeys();
    } else {
      KeysReached(gs[..|gs| - 1], reaches);
      AllKeysSnoc(gs);
    }
  }

  lemma NoKeys()
    ensures AllKeys([]) == {}
  {
  }

  lemma PartitionKeys(st: Store, gs: seq<Group>)
    requires Partitions(gs, Expired(st.holds, st.now))
    ensures AllKeys(gs) == ExpiredKeys(st)
  {
    forall k | k in ExpiredKeys(st) ensures k in AllKeys(gs) {
      var h :| h in st.holds && IsExpired(h, st.now) && h.key == k;
      assert h in Expired(st.holds, st.now);
      var i :| 0 <= i < |gs| && h in gs[i].members;
    }
  }

  // ----- exactness

  lemma GroupHasOneOwner(st: Store, gs: seq<Group>, hs: seq<Hold>, i: nat)
    requires Partitions(gs, hs) && NoCollision(hs) && i < |gs|
    requires forall h :: h in hs ==> h in st.holds && IsExpired(h, st.now)
    ensures OneOwner(st, gs[i])
  {
    assert gs[i].members[0] in gs[i].members;
  }

  lemma GroupsHaveOneOwner(st: Store)
    requires NoCollision(Expired(st.holds, st.now))
    ensures forall i :: 0 <= i < |GroupAll(Expired(st.holds, st.now))| ==>
            OneOwner(st, GroupAll(Expired(st.holds, st.now))[i])
  {
    hide GroupAll, Partitions, Expired, NoCollision, OneOwner;
    var hs := Expired(st.holds, st.now);
    GroupAllPartitions(hs);
    forall i | 0 <= i < |GroupAll(hs)| ensures OneOwner(st, GroupAll(hs)[i]) {
      GroupHasOneOwner(st, GroupAll(hs), hs, i);
    }
  }

  /** The seats whose release was committed in a sweep, and those whose release came to its end. */
  function Committing(st: Store, reaches: nat -> Reach): set<SeatKey> {
    CommittedKeys(GroupAll(Expired(st.holds, st.now)), reaches)
  }

  function Finishing(st: Store, reaches: nat -> Reach): set<SeatKey> {
    FinishedKeys(GroupAll(Expired(st.holds, st.now)), reaches)
  }

  /** A sweep in which any release may throw at any point: each group is released as a whole or left for
      the next tick, apart from the cached statuses. */
  lemma {:induction false} SweepUpToExact(st: Store, reaches: nat -> Reach)
    requires Inv(st) && NoCollision(Expired(st.holds, st.now))
    ensures SweepUpTo(st, reaches) == SweptPartly(st, Committing(st, reaches), Finishing(st, reaches))
    ensures Finishing(st, reaches) <= Committing(st, reaches) <= ExpiredKeys(st)
    ensures (forall i: nat :: reaches(i) == Finished) ==> Finishing(st, reaches) == ExpiredKeys(st)
  {
    hide Inv, NoCollision, ExpiredKeys, ReleaseGroups, OneOwner, CommittedKeys, FinishedKeys, AllKeys, Partitions;
    var hs := Expired(st.holds, st.now);
    GroupAllPartitions(hs);
    GroupsHaveOneOwner(st);
    GroupsReleasedExactly(st, GroupAll(hs), reaches);
    KeysReached(GroupAll(hs), reaches);
    PartitionKeys(st, GroupAll(hs));
  }

  lemma SweepExactWithoutCollision(st: Store)
    requires Inv(st) && NoCollision(Expired(st.holds, st.now))
    ensures Sweep(st) == SweptTo(st, ExpiredKeys(st))
  {
    hide Inv, NoCollision, ExpiredKeys, SweepUpTo, Committing, Finishing;
    SweepUpToExact(st, (i: nat) => Finished);
  }

  /** The first member of a group, on whose behalf it is released, is not of this hold's user and event. */
  predicate Foreign(g: Group, h: Hold) {
    g.members != [] && (g.members[0].user != h.user || g.members[0].key.event != h.key.event)
  }

  lemma ForeignGroupLeavesHold(st: Store, g: Group, reach: Reach, j: nat)
    requires j < |st.holds| && Foreign(g, st.holds[j])
    ensures |ReleaseGroup(st, g, reach).holds| == |st.holds| && ReleaseGroup(st, g, reach).holds[j] == st.holds[j]
  {
  }

  /** A hold is left alone by every foreign group. */
  lemma {:induction false} ForeignGroupsLeaveHold(st: Store, gs: seq<Group>, reaches: nat -> Reach, j: nat)
    requires j < |st.holds| && forall i :: 0 <= i < |gs| ==> Foreign(gs[i], st.holds[j])
    ensures |ReleaseGroups(st, gs, reaches).holds| == |st.holds|
    ensures ReleaseGroups(st, gs, reaches).holds[j] == st.holds[j]
  {
    hide ReleaseGroup, Foreign;
    if gs != [] {
      var n := |gs| - 1;
      ForeignGroupsLeaveHold(st, gs[..n], reaches, j);
      ForeignGroupLeavesHold(ReleaseGroups(st, gs[..n], reaches), gs[n], reaches(n), j);
    }
  }

  lemma ForeignToAll(gs: seq<Group>, hs: seq<Hold>, g: nat, h: Hold)
    requires Partitions(gs, hs) && g < |gs| && KeyOf(h) == gs[g].key && Foreign(gs[g], h)
    ensures forall i :: 0 <= i < |gs| ==> Foreign(gs[i], h)
  {
    forall i | 0 <= i < |gs| ensures Foreign(gs[i], h) {
      var first := gs[i].members[0];
      assert first in gs[i].members;
      assert i != g ==> KeyOf(first) != KeyOf(h);
    }
  }

  /** Of two owners with one group key, one has a hold that is foreign to every group. */
  lemma CollisionHidesHold(hs: seq<Hold>) returns (h: Hold)
    requires !NoCollision(hs)
    ensures h in hs && forall i :: 0 <= i < |GroupAll(hs)| ==> Foreign(GroupAll(hs)[i], h)
  {
    hide KeyOf, GroupAll;
    var gs := GroupAll(hs);
    GroupAllPartitions(hs);
    var a, b :| a in hs && b in hs && KeyOf(a) == KeyOf(b) && !(a.key.event == b.key.event && a.user == b.user);
    var g :| 0 <= g < |gs| && a in gs[g].members;
    var first := gs[g].members[0];
    h := if a.key.event == first.key.event && a.user == first.user then b else a;
    ForeignToAll(gs, hs, g, h);
  }

  /** Two owners of one key: a hold of one of them stays open, in every sweep. */
  lemma {:induction false} CollisionLeavesExpiredHold(st: Store, reaches: nat -> Reach) returns (j: nat)
    requires !NoCollision(Expired(st.holds, st.now))
    ensures j < |st.holds| == |SweepUpTo(st, reaches).holds|
    ensures IsExpired(st.holds[j], st.now) && SweepUpTo(st, reaches).holds[j] == st.holds[j]
  {
    hide NoCollision, GroupAll, ReleaseGroups, Foreign;
    var h := CollisionHidesHold(Expired(st.holds, st.now));
    j :| 0 <= j < |st.holds| && st.holds[j] == h;
    ForeignGroupsLeaveHold(st, GroupAll(Expired(st.holds, st.now)), reaches, j);
  }

  /** One uninterrupted sweep closes exactly the expired holds and frees exactly their seats if and only
      if no two expired holds of different owners share a group key. */
  lemma {:induction false} SweepExactIff(st: Store)
    requires Inv(st)
    ensures Sweep(st) == SweptTo(st, ExpiredKeys(st)) <==> NoCollision(Expired(st.holds, st.now))
  {
    if NoCollision(Expired(st.holds, st.now)) {
      SweepExactWithoutCollision(st);
    } else {
      var j := CollisionLeavesExpiredHold(st, (i: nat) => Finished);
      assert st.holds[j] in st.holds && st.holds[j].key in ExpiredKeys(st);
      assert SweptTo(st, ExpiredKeys(st)).holds[j].released == Some(Timeout);
    }
  }

  ghost predicate ColonFree(holds: seq<Hold>) {
    forall h :: h in holds ==> ':' !in h.key.event
  }

  /** With event ids free of ':' a sweep is exact, keeps the invariant and leaves no expired open hold. */
  lemma {:induction false} SweepIsExact(st: Store)
    requires Inv(st) && ColonFree(st.holds)
    ensures Sweep(st) == SweptTo(st, ExpiredKeys(st))
    ensures Inv(Sweep(st))
    ensures forall h :: h in Sweep(st).holds ==> !IsExpired(h, st.now)
  {
    NoCollisionWithoutColons(st);
    SweepExactWithoutCollision(st);
    SweptKeepsInv(st, ExpiredKeys(st));
    forall h | h in Sweep(st).holds ensures !IsExpired(h, st.now) {
      var i :| 0 <= i < |st.holds| && Sweep(st).holds[i] == h;
      assert st.holds[i] in st.holds;
    }
  }

  lemma NoCollisionWithoutColons(st: Store)
    requires ColonFree(st.holds)
    ensures NoCollision(Expired(st.holds, st.now))
  {
    forall a, b | a in Expired(st.holds, st.now) && b in Expired(st.holds, st.now) && KeyOf(a) == KeyOf(b)
      ensures a.key.event == b.key.event && a.user == b.user
    {
      ColonFreeKeys(a.key.event, a.user, b.key.event, b.user);
    }
  }

  lemma LockedIsNotExpired(st: Store, k: SeatKey)
    requires Inv(st) && k in st.locks
    ensures k !in ExpiredKeys(st)
  {
    forall h | h in st.holds && IsExpired(h, st.now) ensures h.key != k {
      ExpiredSeatsUnlocked(st, h);
    }
  }

  lemma SweptKeepsHeldIff(st: Store, ks: set<SeatKey>)
    requires OneOpenHold(st.holds) && HeldIffOpenHold(st)
    ensures HeldIffOpenHold(SweptTo(st, ks)) && OneOpenHold(SweptTo(st, ks).holds)
  {
    var st' := SweptTo(st, ks);
    assert forall i :: 0 <= i < |st.holds| ==> st'.holds[i] == Expire(st.holds[i], ks);
    forall k | k in st'.rows && st'.rows[k].status == Held ensures HasOpenHold(st'.holds, k) {
      assert HasOpenHold(st.holds, k);
      var i :| 0 <= i < |st.holds| && Open(st.holds[i], k);
      assert Open(st'.holds[i], k);
    }
  }

  lemma SweptKeepsLocks(st: Store, ks: set<SeatKey>)
    requires Inv(st) && ks <= ExpiredKeys(st)
    ensures LocksBacked(SweptTo(st, ks))
  {
    var st' := SweptTo(st, ks);
    forall k | k in st'.locks ensures HeldBy(st'.holds, k, st'.locks[k].user, st'.locks[k].expiresAt) {
      var l := st.locks[k];
      var i :| 0 <= i < |st.holds| && Open(st.holds[i], k) && st.holds[i].user == l.user
          && l.expiresAt <= st.holds[i].expiresAt;
      LockedIsNotExpired(st, k);
      assert st'.holds[i] == Expire(st.holds[i], ks);
      assert Open(st'.holds[i], k);
    }
  }

  lemma SweptKeepsInv(st: Store, ks: set<SeatKey>)
    requires Inv(st) && ks <= ExpiredKeys(st)
    ensures Inv(SweptTo(st, ks))
  {
    SweptKeepsHeldIff(st, ks);
    SweptKeepsLocks(st, ks);
  }

  // ----- the next tick makes up for releases that threw

  lemma StillExpired(st: Store, ks: set<SeatKey>, cached: set<SeatKey>)
    requires ks <= ExpiredKeys(st)
    ensures ExpiredKeys(SweptPartly(st, ks, cached)) == ExpiredKeys(st) - ks
    ensures ColonFree(st.holds) ==> ColonFree(SweptPartly(st, ks, cached).holds)
  {
    var st' := SweptPartly(st, ks, cached);
    forall k | k in ExpiredKeys(st) - ks ensures k in ExpiredKeys(st') {
      var h :| h in st.holds && IsExpired(h, st.now) && h.key == k;
      var i :| 0 <= i < |st.holds| && st.holds[i] == h;
      assert st'.holds[i] == h;
    }
    forall h | h in st'.holds ensures exists g :: g in st.holds && h == Expire(g, ks) {
      var i :| 0 <= i < |st'.holds| && st'.holds[i] == h;
      assert st.holds[i] in st.holds;
    }
  }

  lemma SweptAgain(st: Store, ks: set<SeatKey>, more: set<SeatKey>, cached: set<SeatKey>)
    ensures SweptTo(SweptPartly(st, ks, cached), more) == SweptPartly(st, ks + more, cached + more)
  {
    OverwritesMerge(st, ks, more);
    OverwritesMerge(st, cached, more);
    assert ExpireAll(ExpireAll(st.holds, ks), more) == ExpireAll(st.holds, ks + more);
  }

  lemma PartlyKeepsInv(st: Store, ks: set<SeatKey>, cached: set<SeatKey>)
    requires Inv(st) && ks <= ExpiredKeys(st)
    ensures Inv(SweptPartly(st, ks, cached))
  {
    SweptKeepsInv(st, ks);
  }

  /** Whatever a tick's releases threw, the invariant holds and an undisturbed sweep completes it: rows, holds
      and locks are as if nothing had been thrown.  Only the cached statuses of groups that were committed
      but not finished stay as they were. */
  lemma {:induction false} NextSweepCompletes(st: Store, reaches: nat -> Reach)
    requires Inv(st) && ColonFree(st.holds)
    ensures Inv(SweepUpTo(st, reaches))
    ensures Sweep(SweepUpTo(st, reaches))
            == SweptPartly(st, ExpiredKeys(st), ExpiredKeys(st) - (Committing(st, reaches) - Finishing(st, reaches)))
  {
    hide Inv, ColonFree, NoCollision, ExpiredKeys, SweepUpTo, Committing, Finishing, SweptTo, SweptPartly;
    NoCollisionWithoutColons(st);
    SweepUpToExact(st, reaches);
    var ks, cached, all := Committing(st, reaches), Finishing(st, reaches), ExpiredKeys(st);
    StillExpired(st, ks, cached);
    PartlyKeepsInv(st, ks, cached);
    NoCollisionWithoutColons(SweptPartly(st, ks, cached));
    SweepExactWithoutCollision(SweptPartly(st, ks, cached));
    SweptAgain(st, ks, all - ks, cached);
    assert ks + (all - ks) == all && cached + (all - ks) == all - (ks - cached);
  }

  // ----- the worker

  class HoldExpiryWorker {
    var isProcessing: bool
    const inventory: HoldService.SeatInventory

    constructor (inventory: HoldService.SeatInventory)
      ensures this.inventory == inventory && !isProcessing
    {
      this.inventory := inventory;
      isProcessing := false;
    }

    /** One cron tick: skipped while another one runs; a group whose release throws is logged and left. */
    method ProcessExpiredHolds(reaches: nat -> Reach)
      modifies this, inventory
      ensures inventory.St() ==
              if old(isProcessing) then old(inventory.St()) else SweepUpTo(old(inventory.St()), reaches)
      ensures isProcessing == old(isProcessing)
    {
      if isProcessing {
        return;
      }
      isProcessing := true;
      var expired := Expired(inventory.holds, inventory.now);
      var grouped := GroupHolds(expired);
      ReleaseAll(grouped, reaches);
      isProcessing := false;
    }

    /** The first loop of the tick. */
    method GroupHolds(expired: seq<Hold>) returns (grouped: seq<Group>)
      ensures grouped == GroupAll(expired) && forall i :: 0 <= i < |grouped| ==> grouped[i].members != []
    {
      grouped := [];
      for i := 0 to |expired|
        invariant grouped == GroupAll(expired[..i])
      {
        assert expired[..i + 1][..i] == expired[..i];
        grouped := Grouped(grouped, expired[i]);
      }
      assert expired[..|expired|] == expired;
      GroupAllPartitions(expired);
    }

    method Grouped(before: seq<Group>, hold: Hold) returns (grouped: seq<Group>)
      ensures grouped == Insert(before, hold)
    {
      var key := KeyOf(hold);
      var at := IndexOf(before, key);
      grouped := before;
      if at == |grouped| {
        grouped := grouped + [Group(key, [])];
      }
      grouped := grouped[at := grouped[at].(members := grouped[at].members + [hold])];
      assert [] + [hold] == [hold];
    }

    /** The second loop of the tick. */
    method ReleaseAll(grouped: seq<Group>, reaches: nat -> Reach)
      requires forall i :: 0 <= i < |grouped| ==> grouped[i].members != []
      modifies inventory
      ensures inventory.St() == ReleaseGroups(old(inventory.St()), grouped, reaches)
    {
      hide ReleaseUpTo;
      for i := 0 to |grouped|
        invariant inventory.St() == ReleaseGroups(old(inventory.St()), grouped[..i], reaches)
      {
        var holds := grouped[i].members;
        assert grouped[..i + 1][..i] == grouped[..i];
        var _ := inventory.ReleaseSeats(holds[0].key.event, SeatsOf(holds), holds[0].user, Timeout, reaches(i));
      }
      assert grouped[..|grouped|] == grouped;
    }
  }
}
