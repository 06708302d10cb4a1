/** The Redis read model of seat availability: when it agrees with the database, and what a read of it
    returns. */
module ReadModel {
  import opened Basics
  import opened SeatStore
  import opened SeatInvariant

  /** Every cached status is the status of an existing row, every cached detail its detail. */
  ghost predicate Agrees(st: Store) {
    && (forall k :: k in st.avail ==> k in st.rows && st.avail[k] == st.rows[k].status)
    && (forall k :: k in st.details ==> k in st.rows && st.details[k] == st.rows[k].detail)
  }

  /** Both hashes of the event cover every seat of the event. */
  ghost predicate Built(st: Store, e: Id) {
    forall k :: k in st.rows && k.event == e ==> k in st.avail && k in st.details
  }

  predicate HashAbsent(st: Store, e: Id) {
    forall k :: k in st.avail ==> k.event != e
  }

  predicate InInventory(st: Store, ks: set<SeatKey>) {
    ks <= st.rows.Keys
  }

  // ----- agreement at operation boundaries

  /** A status write with its cache update keeps the agreement exactly when the requested seats are all
      in the inventory: the cache update does not check. */
  lemma {:induction false} OverwriteKeepsAgreementIff(st: Store, st': Store, ks: set<SeatKey>, s: Status)
    requires Agrees(st)
    requires st'.rows == Restatus(st.rows, ks, s) && st'.avail == PutAvail(st.avail, ks, s) && st'.details == st.details
    ensures Agrees(st') <==> InInventory(st, ks)
  {
    if !InInventory(st, ks) {
      var k :| k in ks && k !in st.rows;
      assert k in st'.avail;
    }
  }

  ghost predicate CacheGuard(st: Store, op: Op) {
    match op
    case OpRelease(e, ids, _, _) => InInventory(st, Keys(e, ids))
    case OpSell(e, ids, _) => InInventory(st, Keys(e, ids))
    case OpReleaseSold(e, ids) => InInventory(st, Keys(e, ids))
    case _ => true
  }

  lemma CreateKeepsAgreement(st: Store, e: Id, seats: seq<NewSeat>)
    requires Agrees(st)
    ensures Agrees(CreateFromEvent(st, e, seats))
  {
    if !HasRows(st.rows, e) {
      assert forall k :: k in NewRows(e, seats) ==> k.event == e;
    }
  }

  lemma HoldKeepsAgreement(st: Store, e: Id, ids: seq<Id>, u: Id, elapsed: nat)
    requires Agrees(st)
    ensures Agrees(HoldSeats(st, e, ids, u, elapsed))
  {
    if CanHold(st, e, ids) {
      OverwriteKeepsAgreementIff(st, AfterHold(st, e, ids, u, elapsed), Keys(e, ids), Held);
      assert InInventory(st, Keys(e, ids));
    }
  }

  lemma RebuildKeepsAgreement(st: Store, e: Id)
    requires Agrees(st)
    ensures Agrees(RebuildCache(st, e))
  {
  }

  lemma {:induction false} StepKeepsAgreementIff(st: Store, op: Op)
    requires Agrees(st)
    ensures Agrees(Apply(st, op)) <==> CacheGuard(st, op)
  {
    match op
    case OpHold(e, ids, u, elapsed) => HoldKeepsAgreement(st, e, ids, u, elapsed);
    case OpRelease(e, ids, u, reason) => OverwriteKeepsAgreementIff(st, Apply(st, op), Keys(e, ids), Available);
    case OpSell(e, ids, u) => OverwriteKeepsAgreementIff(st, Apply(st, op), Keys(e, ids), Sold);
    case OpReleaseSold(e, ids) => OverwriteKeepsAgreementIff(st, Apply(st, op), Keys(e, ids), Available);
    case OpCreate(e, seats) => CreateKeepsAgreement(st, e, seats);
    case OpRebuild(e) => RebuildKeepsAgreement(st, e);
    case OpTick(d) =>
  }

  // ----- reads

  /** One seat as the read service returns it: its detail may be missing from the cache. */
  datatype SeatView = SeatView(detail: Option<Detail>, status: Status)

  /** `getEventSeatsWithStatus`: a missing hash is rebuilt first, a partial one is not. */
  function Warm(st: Store, e: Id): Store {
    if HashAbsent(st, e) then RebuildCache(st, e) else st
  }

  function CachedView(st: Store, e: Id): map<SeatKey, SeatView> {
    map k | k in st.avail && k.event == e ::
      SeatView(if k in st.details then Some(st.details[k]) else None, st.avail[k])
  }

  function GetEventSeats(st: Store, e: Id): map<SeatKey, SeatView> {
    CachedView(Warm(st, e), e)
  }

  function DatabaseView(st: Store, e: Id): map<SeatKey, SeatView> {
    map k | k in st.rows && k.event == e :: SeatView(Some(st.rows[k].detail), st.rows[k].status)
  }

  /** Building an event's hashes makes them exact, and no operation on inventory seats undoes it. */
  lemma RebuildBuilds(st: Store, e: Id)
    ensures Built(RebuildCache(st, e), e)
  {
  }

  lemma BuiltStays(st: Store, op: Op, e: Id)
    requires Agrees(st) && CacheGuard(st, op) && Built(st, e) && HasRows(st.rows, e)
    ensures Built(Apply(st, op), e) && HasRows(Apply(st, op).rows, e)
  {
    var k :| k in st.rows && k.event == e;
    assert k in Apply(st, op).rows;
    match op
    case OpCreate(e', seats) => assert forall k :: k in NewRows(e', seats) ==> k.event == e';
    case _ =>
  }

  lemma WarmKeepsAgreement(st: Store, e: Id)
    requires Agrees(st)
    ensures Agrees(Warm(st, e))
  {
  }

  lemma PartialReadIsWrong(st: Store, e: Id)
    requires Agrees(st) && !HashAbsent(st, e) && !Built(st, e)
    ensures GetEventSeats(st, e) != DatabaseView(st, e)
  {
    hide Agrees, HashAbsent;
    var k :| k in st.rows && k.event == e && !(k in st.avail && k in st.details);
    assert k in DatabaseView(st, e) && DatabaseView(st, e)[k].detail.Some?;
    assert Warm(st, e) == st by { NotWarmed(st, e); }
    assert k in GetEventSeats(st, e) ==> GetEventSeats(st, e)[k].detail == None;
  }

  lemma NotWarmed(st: Store, e: Id)
    requires !HashAbsent(st, e)
    ensures Warm(st, e) == st
  {
  }

  lemma CompleteReadIsRight(st: Store, e: Id)
    requires Agrees(st) && Built(st, e)
    ensures CachedView(st, e) == DatabaseView(st, e)
  {
  }

  lemma AbsentReadIsRight(st: Store, e: Id)
    requires Agrees(st) && HashAbsent(st, e)
    ensures GetEventSeats(st, e) == DatabaseView(st, e)
  {
    hide Agrees, Built, CachedView, DatabaseView, RebuildCache;
    if HasRows(st.rows, e) {
      RebuildBuilds(st, e);
      RebuildKeepsAgreement(st, e);
      CompleteReadIsRight(RebuildCache(st, e), e);
      SameDatabase(st, e);
    } else {
      NothingToRead(st, e);
    }
  }

  lemma SameDatabase(st: Store, e: Id)
    ensures DatabaseView(RebuildCache(st, e), e) == DatabaseView(st, e)
  {
  }

  lemma NothingToRead(st: Store, e: Id)
    requires HashAbsent(st, e) && !HasRows(st.rows, e)
    ensures CachedView(Warm(st, e), e) == DatabaseView(st, e)
  {
    assert CachedView(Warm(st, e), e).Keys == {} == DatabaseView(st, e).Keys;
  }

  /** A read returns what the database holds exactly when the status hash is absent or both hashes are
      complete.  The other case occurs: a hold on a fresh event leaves a partial hash. */
  lemma {:induction false} ReadEqualsDatabaseIff(st: Store, e: Id)
    requires Agrees(st)
    ensures GetEventSeats(st, e) == DatabaseView(st, e) <==> HashAbsent(st, e) || Built(st, e)
  {
    hide Agrees, Built, CachedView, DatabaseView, HashAbsent;
    if HashAbsent(st, e) {
      AbsentReadIsRight(st, e);
    } else if Built(st, e) {
      NotWarmed(st, e);
      CompleteReadIsRight(st, e);
    } else {
      PartialReadIsWrong(st, e);
    }
  }

  // ----- runs, in which reads that rebuild a missing hash are steps

  datatype Step = Database(op: Op) | Read(e: Id)

  function After(st: Store, step: Step): Store {
    match step
    case Database(op) => Apply(st, op)
    case Read(e) => Warm(st, e)
  }

  function Runs(st: Store, steps: seq<Step>): Store {
    if steps == [] then st else After(Runs(st, steps[..|steps| - 1]), steps[|steps| - 1])
  }

  ghost predicate StepGuard(st: Store, step: Step) {
    step.Database? ==> CacheGuard(st, step.op)
  }

  ghost predicate CacheGuarded(st: Store, steps: seq<Step>) {
    steps == [] ||
    (CacheGuarded(st, steps[..|steps| - 1]) && StepGuard(Runs(st, steps[..|steps| - 1]), steps[|steps| - 1]))
  }

  /** Both hashes of an event that has seats are complete. */
  ghost predicate Complete(st: Store, e: Id) {
    HasRows(st.rows, e) && Built(st, e)
  }

  lemma StepKeepsReadModel(st: Store, step: Step)
    requires Agrees(st) && StepGuard(st, step)
    ensures Agrees(After(st, step))
    ensures forall e :: Complete(st, e) ==> Complete(After(st, step), e)
  {
    hide Agrees, Built, HasRows;
    forall e | Complete(st, e) ensures Complete(After(st, step), e) {
      match step
      case Database(op) => BuiltStays(st, op, e);
      case Read(e') => WarmKeepsComplete(st, e', e);
    }
    match step
    case Database(op) => StepKeepsAgreementIff(st, op);
    case Read(e') => WarmKeepsAgreement(st, e');
  }

  lemma WarmKeepsComplete(st: Store, e': Id, e: Id)
    requires Agrees(st) && Complete(st, e)
    ensures Complete(Warm(st, e'), e)
  {
    hide Built, Agrees, HasRows;
    if HashAbsent(st, e') {
      BuiltStays(st, OpRebuild(e'), e);
    }
  }

  /** Over every run of guarded operations and reads the cache agrees with the database, and an event whose
      hashes are complete keeps them complete. */
  lemma {:induction false} RunKeepsReadModel(st: Store, steps: seq<Step>)
    requires Agrees(st) && CacheGuarded(st, steps)
    ensures Agrees(Runs(st, steps))
    ensures forall e :: Complete(st, e) ==> Complete(Runs(st, steps), e)
  {
    hide Agrees, Complete, StepGuard, After;
    if steps != [] {
      RunKeepsReadModel(st, steps[..|steps| - 1]);
      StepKeepsReadModel(Runs(st, steps[..|steps| - 1]), steps[|steps| - 1]);
    }
  }

  /** The step builds the hashes of the event: a rebuild, or a read that finds no hash. */
  predicate Builds(st: Store, step: Step, e: Id) {
    HasRows(st.rows, e) && (step == Database(OpRebuild(e)) || (step == Read(e) && HashAbsent(st, e)))
  }

  lemma BuildsCompletes(st: Store, step: Step, e: Id)
    requires Builds(st, step, e)
    ensures Complete(After(st, step), e)
  {
    hide Built;
    RebuildBuilds(st, e);
  }

  lemma {:induction false} RunsAppend(st: Store, first: seq<Step>, more: seq<Step>)
    ensures Runs(st, first + more) == Runs(Runs(st, first), more)
    ensures CacheGuarded(st, first + more) ==> CacheGuarded(st, first) && CacheGuarded(Runs(st, first), more)
    decreases |more|
  {
    hide After, StepGuard;
    if more == [] {
      assert first + more == first;
    } else {
      var n := |more| - 1;
      assert (first + more)[..|first + more| - 1] == first + more[..n];
      RunsAppend(st, first, more[..n]);
    }
  }

  /** Once some step of a guarded run has built an event's hashes, every later read of it, after any
      further steps, returns what the database then holds. */
  lemma {:induction false} OnceBuiltReadsAreRight(st: Store, before: seq<Step>, step: Step, after: seq<Step>, e: Id)
    requires Agrees(st) && CacheGuarded(st, before + [step] + after)
    requires Builds(Runs(st, before), step, e)
    ensures GetEventSeats(Runs(st, before + [step] + after), e) == DatabaseView(Runs(st, before + [step] + after), e)
  {
    hide Agrees, Builds, StepGuard, GetEventSeats, DatabaseView;
    var first := before + [step];
    RunsAppend(st, first, after);
    assert first[..|first| - 1] == before;
    BuildsCompletes(Runs(st, before), step, e);
    RunKeepsReadModel(st, first);
    RunKeepsReadModel(Runs(st, first), after);
    assert Complete(Runs(st, first), e);
    ReadEqualsDatabaseIff(Runs(st, first + after), e);
  }

  // ----- a fresh event

  /** Two available seats, nothing cached yet. */
  function FreshEvent(): Store {
    var d := Detail("A", 5);
    var rows := map[SeatKey("e", "1") := Row(Available, d), SeatKey("e", "2") := Row(Available, d)];
    Store(0, rows, [], map[], map[], map[])
  }

  lemma FreshEventCanHold()
    ensures CanHold(FreshEvent(), "e", ["1"]) && Keys("e", ["1"]) == {SeatKey("e", "1")}
    ensures SeatKey("e", "2") !in Keys("e", ["1"])
  {
    assert "1"[0] != "2"[0];
    assert SeatKey("e", "1") in Keys("e", ["1"]) by { assert "1" in ["1"]; }
    assert Keys("e", ["1"]) == {SeatKey("e", "1")};
  }

  /** The first hold on an event of which nothing is cached leaves a hash of the held seats alone, so that
      reads miss the others. */
  lemma {:induction false} FreshEventReadsWrongAfterHold()
    ensures Agrees(FreshEvent()) && HashAbsent(FreshEvent(), "e") && CanHold(FreshEvent(), "e", ["1"])
    ensures var st := HoldSeats(FreshEvent(), "e", ["1"], "u", 0); GetEventSeats(st, "e") != DatabaseView(st, "e")
  {
    hide CanHold, GetEventSeats, DatabaseView, Keys;
    FreshEventCanHold();
    var st := HoldSeats(FreshEvent(), "e", ["1"], "u", 0);
    HoldKeepsAgreement(FreshEvent(), "e", ["1"], "u", 0);
    assert SeatKey("e", "1") in st.avail;
    assert SeatKey("e", "2") in st.rows && SeatKey("e", "2") !in st.avail;
    ReadEqualsDatabaseIff(st, "e");
  }

  // ----- the availability summary

  datatype Section = Section(name: string, total: nat, available: nat, held: nat, sold: nat, price: Option<int>)

  datatype Summary = Summary(totalSeats: nat, available: nat, held: nat, sold: nat, sections: seq<Section>)

  function SectionName(v: SeatView): string {
    if v.detail.None? || v.detail.value.section == "" then "Unknown" else v.detail.value.section
  }

  function One(b: bool): nat { if b then 1 else 0 }

  /** How many of the seats are in the section and, when given, in the status. */
  function Tally(seats: seq<SeatView>, name: Option<string>, status: Option<Status>): nat {
    Count(seats, (v: SeatView) =>
        (name.None? || SectionName(v) == name.value) && (status.None? || v.status == status.value))
  }

  /** A section line counts the seats of its section, by status. */
  ghost predicate LineOf(seats: seq<SeatView>, s: Section) {
    && s.total == Tally(seats, Some(s.name), None)
    && s.available == Tally(seats, Some(s.name), Some(Available))
    && s.held == Tally(seats, Some(s.name), Some(Held))
    && s.sold == Tally(seats, Some(s.name), Some(Sold))
    && s.price == FirstPrice(seats, s.name)
  }

  function PriceOf(v: SeatView): Option<int> {
    if v.detail.Some? then Some(v.detail.value.price) else None
  }

  /** The price shown for a section is the price of its first seat. */
  function FirstPrice(seats: seq<SeatView>, name: string): Option<int> {
    if seats == [] then None else
      var n := |seats| - 1;
      if Tally(seats[..n], Some(name), None) > 0 then FirstPrice(seats[..n], name)
      else if SectionName(seats[n]) == name then PriceOf(seats[n])
      else None
  }

  ghost predicate NamesDistinct(ls: seq<Section>) {
    forall i, j :: 0 <= i < j < |ls| ==> ls[i].name != ls[j].name
  }

  function AddSeat(s: Section, status: Status): Section {
    s.(total := s.total + 1,
       available := s.available + One(status == Available),
       held := s.held + One(status == Held),
       sold := s.sold + One(status == Sold))
  }

  method FindSection(ls: seq<Section>, name: string) returns (at: nat)
    ensures at <= |ls|
    ensures at < |ls| ==> ls[at].name == name
    ensures at == |ls| ==> forall i :: 0 <= i < |ls| ==> ls[i].name != name
  {
    at := 0;
    while at < |ls| && ls[at].name != name
      invariant at <= |ls|
      invariant forall i :: 0 <= i < at ==> ls[i].name != name
    {
      at := at + 1;
    }
  }

  lemma TallySnoc(seats: seq<SeatView>, v: SeatView, name: Option<string>, status: Option<Status>)
    ensures Tally(seats + [v], name, status) ==
            Tally(seats, name, status) +
                One((name.None? || SectionName(v) == name.value) && (status.None? || v.status == status.value))
  {
    CountSnoc(seats, v, (v: SeatView) =>
        (name.None? || SectionName(v) == name.value) && (status.None? || v.status == status.value));
  }

  lemma LineSnoc(seats: seq<SeatView>, v: SeatView, s: Section)
    requires LineOf(seats, s) && s.total > 0
    ensures LineOf(seats + [v], if SectionName(v) == s.name then AddSeat(s, v.status) else s)
  {
    assert (seats + [v])[..|seats|] == seats;
    TallySnoc(seats, v, Some(s.name), None);
    TallySnoc(seats, v, Some(s.name), Some(Available));
    TallySnoc(seats, v, Some(s.name), Some(Held));
    TallySnoc(seats, v, Some(s.name), Some(Sold));
  }

  lemma OpeningLine(seats: seq<SeatView>, v: SeatView, s: Section)
    requires s == Section(SectionName(v), 0, 0, 0, 0, PriceOf(v))
    requires forall i :: 0 <= i < |seats| ==> SectionName(seats[i]) != s.name
    ensures LineOf(seats + [v], AddSeat(s, v.status))
  {
    TallyOfAbsentName(seats, s.name, None);
    TallyOfAbsentName(seats, s.name, Some(Available));
    TallyOfAbsentName(seats, s.name, Some(Held));
    TallyOfAbsentName(seats, s.name, Some(Sold));
    assert (seats + [v])[..|seats|] == seats;
    TallySnoc(seats, v, Some(s.name), None);
    TallySnoc(seats, v, Some(s.name), Some(Available));
    TallySnoc(seats, v, Some(s.name), Some(Held));
    TallySnoc(seats, v, Some(s.name), Some(Sold));
  }

  lemma {:induction false} TallyOfAbsentName(seats: seq<SeatView>, name: string, status: Option<Status>)
    requires forall i :: 0 <= i < |seats| ==> SectionName(seats[i]) != name
    ensures Tally(seats, Some(name), status) == 0
  {
    if seats != [] {
      var n := |seats| - 1;
      TallyOfAbsentName(seats[..n], name, status);
      assert seats == seats[..n] + [seats[n]];
      TallySnoc(seats[..n], seats[n], Some(name), status);
    }
  }

  /** The section lines of a summary over `seats`: one per section name that occurs. */
  ghost predicate LinesOf(seats: seq<SeatView>, ls: seq<Section>) {
    && NamesDistinct(ls)
    && (forall j :: 0 <= j < |ls| ==> ls[j].total > 0 && LineOf(seats, ls[j]))
    && (forall v :: v in seats ==> exists n :: 0 <= n < |ls| && ls[n].name == SectionName(v))
    && TotalOf(ls) == |seats|
  }

  ghost predicate Summarizes(r: Summary, seats: seq<SeatView>) {
    && r.totalSeats == |seats|
    && r.available == Tally(seats, None, Some(Available))
    && r.held == Tally(seats, None, Some(Held))
    && r.sold == Tally(seats, None, Some(Sold))
    && LinesOf(seats, r.sections)
  }

  lemma NewNames(seats: seq<SeatView>, ls: seq<Section>, last: Section, v: SeatView)
    requires last.name == SectionName(v)
    requires forall w :: w in seats ==> exists n :: 0 <= n < |ls| && ls[n].name == SectionName(w)
    ensures forall w :: w in seats + [v] ==>
            exists n :: 0 <= n < |ls + [last]| && (ls + [last])[n].name == SectionName(w)
  {
    var ls' := ls + [last];
    forall w | w in seats + [v] ensures exists n :: 0 <= n < |ls'| && ls'[n].name == SectionName(w) {
      if w in seats {
        var n :| 0 <= n < |ls| && ls[n].name == SectionName(w);
        assert ls'[n] == ls[n];
      } else {
        assert ls'[|ls|].name == SectionName(w);
      }
    }
  }

  lemma NewLines(seats: seq<SeatView>, ls: seq<Section>, first: Section, v: SeatView)
    requires LinesOf(seats, ls) && first == Section(SectionName(v), 0, 0, 0, 0, PriceOf(v))
    requires forall i :: 0 <= i < |ls| ==> ls[i].name != first.name
    ensures LineOf(seats + [v], AddSeat(first, v.status))
    ensures forall j :: 0 <= j < |ls| ==> LineOf(seats + [v], ls[j])
  {
    forall i | 0 <= i < |seats| ensures SectionName(seats[i]) != first.name {
      assert seats[i] in seats;
    }
    OpeningLine(seats, v, first);
    forall j | 0 <= j < |ls| ensures LineOf(seats + [v], ls[j]) {
      LineSnoc(seats, v, ls[j]);
    }
  }

  lemma NewLine(seats: seq<SeatView>, ls: seq<Section>, v: SeatView)
    requires LinesOf(seats, ls)
    requires forall i :: 0 <= i < |ls| ==> ls[i].name != SectionName(v)
    ensures LinesOf(seats + [v], ls + [AddSeat(Section(SectionName(v), 0, 0, 0, 0, PriceOf(v)), v.status)])
  {
    hide LineOf, Tally;
    var first := Section(SectionName(v), 0, 0, 0, 0, PriceOf(v));
    NewLines(seats, ls, first, v);
    NewNames(seats, ls, AddSeat(first, v.status), v);
    SumSnoc(ls, AddSeat(first, v.status), (s: Section) => s.total);
  }

  lemma GrownNames(seats: seq<SeatView>, ls: seq<Section>, ls': seq<Section>, v: SeatView, at: nat)
    requires at < |ls| == |ls'| && ls[at].name == SectionName(v)
    requires forall j :: 0 <= j < |ls| ==> ls'[j].name == ls[j].name
    requires forall w :: w in seats ==> exists n :: 0 <= n < |ls| && ls[n].name == SectionName(w)
    ensures forall w :: w in seats + [v] ==> exists n :: 0 <= n < |ls'| && ls'[n].name == SectionName(w)
  {
    forall w | w in seats + [v] ensures exists n :: 0 <= n < |ls'| && ls'[n].name == SectionName(w) {
      if w in seats {
        var n :| 0 <= n < |ls| && ls[n].name == SectionName(w);
        assert ls'[n].name == ls[n].name;
      } else {
        assert ls'[at].name == SectionName(w);
      }
    }
  }

  lemma GrownLines(seats: seq<SeatView>, ls: seq<Section>, ls': seq<Section>, v: SeatView, at: nat)
    requires NamesDistinct(ls) && at < |ls| && ls[at].name == SectionName(v)
    requires ls' == ls[at := AddSeat(ls[at], v.status)]
    requires forall j :: 0 <= j < |ls| ==> ls[j].total > 0 && LineOf(seats, ls[j])
    ensures NamesDistinct(ls') && forall j :: 0 <= j < |ls'| ==> ls'[j].total > 0 && LineOf(seats + [v], ls'[j])
  {
    forall j | 0 <= j < |ls| ensures ls'[j].total > 0 && LineOf(seats + [v], ls'[j]) {
      LineSnoc(seats, v, ls[j]);
    }
  }

  lemma GrownLine(seats: seq<SeatView>, ls: seq<Section>, v: SeatView, at: nat)
    requires LinesOf(seats, ls) && at < |ls| && ls[at].name == SectionName(v)
    ensures LinesOf(seats + [v], ls[at := AddSeat(ls[at], v.status)])
  {
    hide LineOf, Tally;
    var ls' := ls[at := AddSeat(ls[at], v.status)];
    GrownLines(seats, ls, ls', v, at);
    GrownNames(seats, ls, ls', v, at);
    SumUpdate(ls, at, ls'[at], (s: Section) => s.total);
  }

  method CountSeat(ls: seq<Section>, v: SeatView, ghost seats: seq<SeatView>) returns (ls': seq<Section>)
    requires LinesOf(seats, ls)
    ensures LinesOf(seats + [v], ls')
  {
    var at := FindSection(ls, SectionName(v));
    if at == |ls| {
      NewLine(seats, ls, v);
      ls' := ls + [AddSeat(Section(SectionName(v), 0, 0, 0, 0, PriceOf(v)), v.status)];
    } else {
      GrownLine(seats, ls, v, at);
      ls' := ls[at := AddSeat(ls[at], v.status)];
    }
  }

  lemma NoLines()
    ensures LinesOf([], [])
  {
  }

  /** `getEventAvailabilitySummary` over the seats it read: sections in order of first appearance. */
  method Summarize(seats: seq<SeatView>) returns (r: Summary)
    ensures Summarizes(r, seats)
  {
    hide LinesOf, Tally;
    var lines: seq<Section> := [];
    NoLines();
    for i := 0 to |seats|
      invariant LinesOf(seats[..i], lines)
    {
      lines := CountSeat(lines, seats[i], seats[..i]);
      assert seats[..i + 1] == seats[..i] + [seats[i]];
    }
    assert seats[..|seats|] == seats;
    r := Summary(|seats|, Tally(seats, None, Some(Available)), Tally(seats, None, Some(Held)),
        Tally(seats, None, Some(Sold)), lines);
  }

  function TotalOf(ls: seq<Section>): int {
    Sum(ls, (s: Section) => s.total)
  }

  /** When no seat is RESERVED, available + held + sold is the seat count, in every section as well. */
  lemma {:induction false} StatusesPartition(seats: seq<SeatView>, name: Option<string>)
    requires forall v :: v in seats ==> v.status != Reserved
    ensures Tally(seats, name, Some(Available)) + Tally(seats, name, Some(Held)) + Tally(seats, name, Some(Sold))
            == Tally(seats, name, None)
  {
    if seats != [] {
      var n := |seats| - 1;
      StatusesPartition(seats[..n], name);
      assert seats == seats[..n] + [seats[n]];
      TallySnoc(seats[..n], seats[n], name, None);
      TallySnoc(seats[..n], seats[n], name, Some(Available));
      TallySnoc(seats[..n], seats[n], name, Some(Held));
      TallySnoc(seats[..n], seats[n], name, Some(Sold));
    }
  }

  // ----- a summary of an event

  /** The seats of a view, listed in some order. */
  ghost predicate Lists(ks: seq<SeatKey>, seats: seq<SeatView>, view: map<SeatKey, SeatView>) {
    && Distinct(ks) && |seats| == |ks|
    && (forall k :: k in ks <==> k in view)
    && (forall i :: 0 <= i < |ks| ==> seats[i] == view[ks[i]])
  }

  lemma ListedSeats(st: Store, e: Id, ks: seq<SeatKey>, seats: seq<SeatView>)
    requires NoneReserved(st.rows) && Agrees(st) && (HashAbsent(st, e) || Built(st, e))
    requires Lists(ks, seats, GetEventSeats(st, e))
    ensures |seats| == |set k | k in st.rows && k.event == e|
    ensures forall v :: v in seats ==> v.status != Reserved
  {
    ReadEqualsDatabaseIff(st, e);
    ListedRows(st, e, ks, seats);
  }

  lemma ListedRows(st: Store, e: Id, ks: seq<SeatKey>, seats: seq<SeatView>)
    requires NoneReserved(st.rows) && Lists(ks, seats, DatabaseView(st, e))
    ensures |seats| == |set k | k in st.rows && k.event == e|
    ensures forall v :: v in seats ==> v.status != Reserved
  {
    var db := DatabaseView(st, e);
    DistinctCount(ks, set k | k in st.rows && k.event == e);
    forall v | v in seats ensures v.status != Reserved {
      var i :| 0 <= i < |seats| && seats[i] == v;
      assert ks[i] in db;
    }
  }

  /** Under the invariant, with hashes absent or complete, a summary accounts for every seat of the
      event exactly once. */
  lemma {:induction false} SummaryAccountsForAllSeats(st: Store, e: Id, ks: seq<SeatKey>, seats: seq<SeatView>,
                                                      r: Summary)
    requires Inv(st) && Agrees(st) && (HashAbsent(st, e) || Built(st, e))
    requires Lists(ks, seats, GetEventSeats(st, e))
    requires Summarizes(r, seats)
    ensures r.totalSeats == |set k | k in st.rows && k.event == e|
    ensures r.available + r.held + r.sold == r.totalSeats == TotalOf(r.sections)
    ensures forall s :: s in r.sections ==> s.available + s.held + s.sold == s.total
  {
    ListedSeats(st, e, ks, seats);
    StatusesPartition(seats, None);
    TallyAll(seats);
    forall s | s in r.sections ensures s.available + s.held + s.sold == s.total {
      StatusesPartition(seats, Some(s.name));
    }
  }

  lemma {:induction false} SameCount<T>(xs: seq<T>, p: T -> bool, q: T -> bool)
    requires forall x :: x in xs ==> p(x) == q(x)
    ensures Count(xs, p) == Count(xs, q)
  {
    if xs != [] {
      assert xs[|xs| - 1] in xs;
      SameCount(xs[..|xs| - 1], p, q);
    }
  }

  /** The read returned this seat with its details, and they name this section. */
  predicate InSection(v: SeatView, name: string) {
    v.detail.Some? && v.detail.value.section == name
  }

  lemma TallyIs(seats: seq<SeatView>, name: Option<string>, status: Option<Status>, q: SeatView -> bool)
    requires forall v :: v in seats ==>
               (q(v) <==> (name.None? || SectionName(v) == name.value) && (status.None? || v.status == status.value))
    ensures Tally(seats, name, status) == Count(seats, q)
  {
    SameCount(seats, (v: SeatView) =>
        (name.None? || SectionName(v) == name.value) && (status.None? || v.status == status.value), q);
  }

  lemma SectionTally(seats: seq<SeatView>, name: string, status: Status)
    requires name != "" && name != "Unknown"
    ensures Tally(seats, Some(name), None) == Count(seats, (v: SeatView) => InSection(v, name))
    ensures Tally(seats, Some(name), Some(status))
            == Count(seats, (v: SeatView) => InSection(v, name) && v.status == status)
  {
    TallyIs(seats, Some(name), None, (v: SeatView) => InSection(v, name));
    TallyIs(seats, Some(name), Some(status), (v: SeatView) => InSection(v, name) && v.status == status);
  }

  /** The price shown is that of the first seat of the section. */
  lemma {:induction false} FirstPriceIs(seats: seq<SeatView>, name: string, i: nat)
    requires name != "" && name != "Unknown" && i < |seats| && InSection(seats[i], name)
    requires forall j :: 0 <= j < i ==> !InSection(seats[j], name)
    ensures FirstPrice(seats, name) == Some(seats[i].detail.value.price)
    decreases |seats|
  {
    var n := |seats| - 1;
    if i < n {
      FirstPriceIs(seats[..n], name, i);
      TallyOfPresentName(seats[..n], name, i);
    } else {
      TallyOfAbsentName(seats[..n], name, None);
    }
  }

  lemma {:induction false} TallyOfPresentName(seats: seq<SeatView>, name: string, i: nat)
    requires i < |seats| && SectionName(seats[i]) == name
    ensures Tally(seats, Some(name), None) > 0
    decreases |seats|
  {
    var n := |seats| - 1;
    assert seats == seats[..n] + [seats[n]];
    TallySnoc(seats[..n], seats[n], Some(name), None);
    if i < n {
      TallyOfPresentName(seats[..n], name, i);
    }
  }

  /** Every section that a seat which was read has in its details has a line, which counts the seats of the
      section by status and shows the price of the first; a line that is not of such a section is "Unknown". */
  lemma {:induction false} SectionLines(seats: seq<SeatView>, r: Summary)
    requires Summarizes(r, seats)
    ensures forall v :: v in seats && v.detail.Some? && v.detail.value.section != "" ==>
              exists n :: 0 <= n < |r.sections| && r.sections[n].name == v.detail.value.section
    ensures forall s :: s in r.sections && s.name != "Unknown" ==> CountsSection(seats, s)
  {
    hide Tally, CountsSection, LineOf;
    forall v | v in seats && v.detail.Some? && v.detail.value.section != ""
      ensures exists n :: 0 <= n < |r.sections| && r.sections[n].name == v.detail.value.section
    {
      assert SectionName(v) == v.detail.value.section;
    }
    forall s | s in r.sections && s.name != "Unknown" ensures CountsSection(seats, s) {
      LineCounts(seats, s);
    }
  }

  ghost predicate CountsSection(seats: seq<SeatView>, s: Section) {
    && s.total == Count(seats, (v: SeatView) => InSection(v, s.name))
    && s.available == Count(seats, (v: SeatView) => InSection(v, s.name) && v.status == Available)
    && s.held == Count(seats, (v: SeatView) => InSection(v, s.name) && v.status == Held)
    && s.sold == Count(seats, (v: SeatView) => InSection(v, s.name) && v.status == Sold)
    && exists i :: 0 <= i < |seats| && InSection(seats[i], s.name) && s.price == Some(seats[i].detail.value.price)
                   && forall j :: 0 <= j < i ==> !InSection(seats[j], s.name)
  }

  lemma LineCounts(seats: seq<SeatView>, s: Section)
    requires LineOf(seats, s) && s.total > 0 && s.name != "Unknown"
    ensures CountsSection(seats, s)
  {
    hide Tally, FirstPrice;
    var i := FirstOfSection(seats, s.name);
    SectionTally(seats, s.name, Available);
    SectionTally(seats, s.name, Held);
    SectionTally(seats, s.name, Sold);
    FirstPriceIs(seats, s.name, i);
  }

  lemma FirstOfSection(seats: seq<SeatView>, name: string) returns (i: nat)
    requires Tally(seats, Some(name), None) > 0 && name != "Unknown"
    ensures name != "" && i < |seats| && InSection(seats[i], name)
    ensures forall j :: 0 <= j < i ==> !InSection(seats[j], name)
  {
    hide Tally;
    i := 0;
    while i < |seats| && SectionName(seats[i]) != name
      invariant i <= |seats| && forall j :: 0 <= j < i ==> SectionName(seats[j]) != name
    {
      i := i + 1;
    }
    if i == |seats| {
      TallyOfAbsentName(seats, name, None);
    }
  }

  lemma {:induction false} TallyAll(seats: seq<SeatView>)
    ensures Tally(seats, None, None) == |seats|
  {
    if seats != [] {
      var n := |seats| - 1;
      TallyAll(seats[..n]);
      assert seats == seats[..n] + [seats[n]];
      TallySnoc(seats[..n], seats[n], None, None);
    }
  }
}
