/** Any number of concurrent `initiatePayment` calls, split into find, unique insert, save, charge and
    settle, each of which may throw or be the last thing its process does. */
module PaymentRace {
  import opened Basics
  import Payments

  datatype Phase =
    | Finding                        // findOne by key is next
    | Inserting                      // nothing was found: the unique insert is next
    | Saving(row: nat)               // the PROCESSING save is next
    | Charging(row: nat)             // the gateway call is next
    | Settling(row: nat, ok: bool)   // the gateway answered: the final save is next
    | Failing(row: nat)              // something threw: the FAILED save is next
    | Returned(row: nat)
    | Threw

  datatype Call = Call(booking: nat, key: Id, amount: int, phase: Phase)

  /** The payment table, and the calls; as history, which call inserted each row, the gateway calls in order,
      and those that the gateway accepted and declined. */
  datatype State = State(
    rows: seq<Payments.Payment>,
    owner: seq<nat>,
    calls: seq<Call>,
    charged: seq<Id>,
    accepted: seq<Id>,
    declined: seq<Id>)

  datatype Event =
    | Begin(booking: nat, key: Id, amount: int)
    | Step(c: nat, answer: Payments.Answer) // `answer` matters only to the gateway call
    | Throw(c: nat)                         // the next step of call c throws without effect
    | Crash(c: nat)

  function Goto(s: State, c: nat, p: Phase): State
    requires c < |s.calls|
  {
    s.(calls := s.calls[c := s.calls[c].(phase := p)])
  }

  function Save(s: State, r: nat, st: Payments.PaymentStatus): State {
    if r < |s.rows| then s.(rows := s.rows[r := s.rows[r].(status := st)]) else s
  }

  /** The gateway call of call c for row r. */
  function Charge(s: State, c: nat, r: nat, answer: Payments.Answer): State
    requires c < |s.calls|
  {
    var key := s.calls[c].key;
    var s' := s.(charged := s.charged + [key]);
    match answer
    case Accepted => Goto(s'.(accepted := s.accepted + [key]), c, Settling(r, true))
    case Declined => Goto(s'.(declined := s.declined + [key]), c, Settling(r, false))
    case Threw => Goto(s', c, Failing(r))
    case Unsaved => Goto(s'.(accepted := s.accepted + [key]), c, Failing(r))
  }

  function StepCall(s: State, c: nat, answer: Payments.Answer): State
    requires c < |s.calls|
  {
    var call := s.calls[c];
    var found := Payments.PaymentByKey(s.rows, call.key);
    match call.phase
    case Finding => Goto(s, c, if found.Some? then Returned(found.value) else Inserting)
    case Inserting =>
      if found.Some? then Goto(s, c, Threw)
      else
        var row := Payments.Payment(call.booking, call.key, call.amount, Payments.Initiated);
        Goto(s.(rows := s.rows + [row], owner := s.owner + [c]), c, Saving(|s.rows|))
    case Saving(r) => Goto(Save(s, r, Payments.Processing), c, Charging(r))
    case Charging(r) => Charge(s, c, r, answer)
    case Settling(r, ok) => Goto(Save(s, r, if ok then Payments.Succeeded else Payments.Failed), c, Returned(r))
    case Failing(r) => Goto(Save(s, r, Payments.Failed), c, Threw)
    case Returned(_) => s
    case Threw => s
  }

  /** A throw before the insert leaves the call; after it, the catch block marks the payment FAILED. */
  function ThrowStep(s: State, c: nat): State
    requires c < |s.calls|
  {
    match s.calls[c].phase
    case Saving(r) => Goto(s, c, Failing(r))
    case Charging(r) => Goto(s, c, Failing(r))
    case Settling(r, _) => Goto(s, c, Failing(r))
    case Returned(_) => s
    case _ => Goto(s, c, Threw)
  }

  function Apply(s: State, ev: Event): State {
    match ev
    case Begin(b, key, amount) => s.(calls := s.calls + [Call(b, key, amount, Finding)])
    case Step(c, answer) => if c < |s.calls| then StepCall(s, c, answer) else s
    case Throw(c) => if c < |s.calls| then ThrowStep(s, c) else s
    case Crash(c) => if c < |s.calls| && !s.calls[c].phase.Returned? then Goto(s, c, Threw) else s
  }

  // ----- the invariant

  /** The call has inserted this row and is not done with it. */
  predicate Drives(call: Call, r: nat) {
    match call.phase
    case Saving(q) => q == r
    case Charging(q) => q == r
    case Settling(q, _) => q == r
    case Failing(q) => q == r
    case _ => false
  }

  /** The row is the one its call asked for, in the state that the call has brought it to. */
  ghost predicate RowOk(s: State, r: nat)
    requires r < |s.rows| && r < |s.owner|
  {
    var row, k := s.rows[r], s.rows[r].key;
    && s.owner[r] < |s.calls|
    && var call := s.calls[s.owner[r]];
       && row.booking == call.booking && row.key == call.key && row.amount == call.amount
       && match call.phase
          case Saving(q) => q == r && row.status == Payments.Initiated && k !in s.charged
          case Charging(q) => q == r && row.status == Payments.Processing && k !in s.charged
          case Settling(q, ok) =>
            && q == r && row.status == Payments.Processing && k in s.charged
            && (k in s.accepted <==> ok) && (k in s.declined <==> !ok)
          case Failing(q) => q == r && (row.status == Payments.Initiated || row.status == Payments.Processing)
          case Returned(q) =>
            && q == r && k in s.charged && (k in s.accepted <==> k !in s.declined)
            && row.status == if k in s.accepted then Payments.Succeeded else Payments.Failed
          case Threw =>
            row.status == Payments.Initiated || row.status == Payments.Processing || row.status == Payments.Failed
          case _ => false
  }

  ghost predicate CallOk(s: State, c: nat)
    requires c < |s.calls|
  {
    && (forall r: nat :: Drives(s.calls[c], r) ==> r < |s.rows| && r < |s.owner| && s.owner[r] == c)
    && (s.calls[c].phase.Returned? ==>
         s.calls[c].phase.row < |s.rows| && s.rows[s.calls[c].phase.row].key == s.calls[c].key)
  }

  ghost predicate HasRow(s: State, k: Id) {
    exists i :: 0 <= i < |s.rows| && s.rows[i].key == k
  }

  ghost predicate Inv(s: State) {
    && |s.owner| == |s.rows|
    && (forall i, j :: 0 <= i < j < |s.rows| ==> s.rows[i].key != s.rows[j].key)
    && (forall r: nat :: r < |s.rows| ==> RowOk(s, r))
    && (forall c: nat :: c < |s.calls| ==> CallOk(s, c))
    && Distinct(s.charged)
    && (forall k :: k in s.charged ==> HasRow(s, k))
    && (forall k :: k in s.accepted || k in s.declined ==> k in s.charged)
  }

  // ----- preservation

  /** What a step of call c leaves alone: the other calls, the rows that c did not insert, and the history of
      their keys. */
  ghost predicate Local(s: State, s': State, c: nat) {
    && c < |s.calls| == |s'.calls| && |s.rows| == |s.owner| <= |s'.rows| == |s'.owner|
    && (forall d: nat :: d < |s.calls| && d != c ==> s'.calls[d] == s.calls[d])
    && (forall r: nat :: r < |s.rows| ==> s'.owner[r] == s.owner[r] && s'.rows[r].key == s.rows[r].key)
    && (forall r: nat :: r < |s.rows| && s.owner[r] != c ==>
         && s'.rows[r] == s.rows[r]
         && (s.rows[r].key in s'.charged <==> s.rows[r].key in s.charged)
         && (s.rows[r].key in s'.accepted <==> s.rows[r].key in s.accepted)
         && (s.rows[r].key in s'.declined <==> s.rows[r].key in s.declined))
  }

  lemma OtherRowOk(s: State, s': State, c: nat, r: nat)
    requires Local(s, s', c) && r < |s.rows| && s.owner[r] != c && RowOk(s, r)
    ensures RowOk(s', r)
  {
  }

  lemma OtherCallOk(s: State, s': State, c: nat, d: nat)
    requires Local(s, s', c) && d < |s.calls| && d != c && CallOk(s, d)
    ensures CallOk(s', d)
  {
  }

  lemma HasRowStays(s: State, s': State, c: nat, k: Id)
    requires Local(s, s', c) && HasRow(s, k)
    ensures HasRow(s', k)
  {
    var i :| 0 <= i < |s.rows| && s.rows[i].key == k;
    assert s'.rows[i].key == k;
  }

  /** A step of call c keeps the invariant if it keeps it for c and the rows that c inserted. */
  lemma LocalKeepsInv(s: State, s': State, c: nat)
    requires Inv(s) && Local(s, s', c) && CallOk(s', c)
    requires forall r: nat :: r < |s'.rows| && s'.owner[r] == c ==> RowOk(s', r)
    requires forall r: nat :: |s.rows| <= r < |s'.rows| ==> s'.owner[r] == c
    requires forall i, j :: 0 <= i < j < |s'.rows| ==> s'.rows[i].key != s'.rows[j].key
    requires Distinct(s'.charged)
    requires forall k :: k in s'.charged && k !in s.charged ==> HasRow(s', k)
    requires forall k :: k in s'.accepted || k in s'.declined ==> k in s'.charged
    ensures Inv(s')
  {
    hide RowOk, CallOk, HasRow;
    forall r: nat | r < |s'.rows| ensures RowOk(s', r) {
      if s'.owner[r] != c {
        OtherRowOk(s, s', c, r);
      }
    }
    forall d: nat | d < |s'.calls| ensures CallOk(s', d) {
      if d != c {
        OtherCallOk(s, s', c, d);
      }
    }
    forall k | k in s'.charged ensures HasRow(s', k) {
      if k in s.charged {
        HasRowStays(s, s', c, k);
      }
    }
  }

  /** The one row that a call drives, or has returned, is the one it inserted, if it inserted any. */
  lemma OwnRow(s: State, c: nat, r: nat)
    requires Inv(s) && c < |s.calls| && r < |s.rows| && s.owner[r] == c
    ensures !s.calls[c].phase.Finding? && !s.calls[c].phase.Inserting?
    ensures forall q: nat :: Drives(s.calls[c], q) ==> q == r
  {
    assert RowOk(s, r);
  }

  lemma DrivenRow(s: State, c: nat, r: nat)
    requires Inv(s) && c < |s.calls| && Drives(s.calls[c], r)
    ensures r < |s.rows| && s.owner[r] == c && RowOk(s, r)
    ensures forall q: nat :: q < |s.rows| && s.owner[q] == c ==> q == r
  {
    assert CallOk(s, c);
    forall q: nat | q < |s.rows| && s.owner[q] == c ensures q == r {
      OwnRow(s, c, q);
    }
  }

  /** A call that has inserted nothing yet finds, is refused, or throws. */
  lemma RowlessStepKeepsInv(s: State, c: nat, p: Phase)
    requires Inv(s) && c < |s.calls| && (s.calls[c].phase.Finding? || s.calls[c].phase.Inserting?)
    requires p.Inserting? || p.Threw? || (p.Returned? && p.row < |s.rows| && s.rows[p.row].key == s.calls[c].key)
    ensures Inv(Goto(s, c, p))
  {
    hide RowOk;
    forall r: nat | r < |s.rows| ensures s.owner[r] != c {
      if s.owner[r] == c { OwnRow(s, c, r); }
    }
    LocalKeepsInv(s, Goto(s, c, p), c);
  }

  lemma InsertKeepsInv(s: State, c: nat, answer: Payments.Answer)
    requires Inv(s) && c < |s.calls| && s.calls[c].phase.Inserting?
    requires Payments.PaymentByKey(s.rows, s.calls[c].key).None?
    ensures Inv(StepCall(s, c, answer))
  {
    var s' := StepCall(s, c, answer);
    forall r: nat | r < |s.rows| ensures s.owner[r] != c {
      if s.owner[r] == c { OwnRow(s, c, r); }
    }
    assert !HasRow(s, s.calls[c].key);
    LocalKeepsInv(s, s', c);
  }

  /** A save of the row that the call drives, with the phase after it. */
  lemma SaveKeepsInv(s: State, c: nat, r: nat, s': State)
    requires Inv(s) && c < |s.calls| && Drives(s.calls[c], r)
    requires s' == s.(rows := s'.rows, calls := s'.calls) && Local(s, s', c) && |s'.rows| == |s.rows|
    requires CallOk(s', c) && r < |s'.rows| && RowOk(s', r)
    ensures Inv(s')
  {
    hide RowOk, CallOk, HasRow;
    DrivenRow(s, c, r);
    LocalKeepsInv(s, s', c);
  }

  lemma ChargeKeepsInv(s: State, c: nat, answer: Payments.Answer)
    requires Inv(s) && c < |s.calls| && s.calls[c].phase.Charging?
    ensures Inv(StepCall(s, c, answer))
  {
    var r := s.calls[c].phase.row;
    var s' := StepCall(s, c, answer);
    DrivenRow(s, c, r);
    assert s'.charged == s.charged + [s.rows[r].key] && s.rows[r].key == s.calls[c].key;
    assert HasRow(s', s.rows[r].key) by { assert s'.rows[r].key == s.rows[r].key; }
    ChargedLocally(s, s', c, r);
    LocalKeepsInv(s, s', c);
  }

  lemma ChargedLocally(s: State, s': State, c: nat, r: nat)
    requires Inv(s) && c < |s.calls| == |s'.calls| && r < |s.rows| && s.owner[r] == c
    requires forall q: nat :: q < |s.rows| && s.owner[q] == c ==> q == r
    requires s'.rows == s.rows && s'.owner == s.owner
    requires forall d: nat :: d < |s.calls| && d != c ==> s'.calls[d] == s.calls[d]
    requires s'.charged == s.charged + [s.rows[r].key]
    requires s'.accepted == s.accepted || s'.accepted == s.accepted + [s.rows[r].key]
    requires s'.declined == s.declined || s'.declined == s.declined + [s.rows[r].key]
    ensures Local(s, s', c)
  {
    hide RowOk, CallOk, HasRow;
  }

  lemma SavingKeepsInv(s: State, c: nat, answer: Payments.Answer)
    requires Inv(s) && c < |s.calls|
    requires s.calls[c].phase.Saving? || s.calls[c].phase.Settling? || s.calls[c].phase.Failing?
    ensures Inv(StepCall(s, c, answer))
  {
    hide HasRow, Payments.PaymentByKey;
    var r := s.calls[c].phase.row;
    DrivenRow(s, c, r);
    SavedRowOk(s, c, answer);
    SaveKeepsInv(s, c, r, StepCall(s, c, answer));
  }

  lemma SavedRowOk(s: State, c: nat, answer: Payments.Answer)
    requires c < |s.calls| && |s.rows| == |s.owner|
    requires s.calls[c].phase.Saving? || s.calls[c].phase.Settling? || s.calls[c].phase.Failing?
    requires var r := s.calls[c].phase.row; r < |s.rows| && s.owner[r] == c && RowOk(s, r)
    ensures RowOk(StepCall(s, c, answer), s.calls[c].phase.row)
  {
    hide Payments.PaymentByKey;
  }

  lemma StepKeepsInv(s: State, c: nat, answer: Payments.Answer)
    requires Inv(s) && c < |s.calls|
    ensures Inv(StepCall(s, c, answer))
  {
    hide RowOk, HasRow;
    assert CallOk(s, c);
    match s.calls[c].phase
    case Finding => RowlessStepKeepsInv(s, c, StepCall(s, c, answer).calls[c].phase);
    case Inserting =>
      if Payments.PaymentByKey(s.rows, s.calls[c].key).None? {
        InsertKeepsInv(s, c, answer);
      } else {
        RowlessStepKeepsInv(s, c, Threw);
      }
    case Charging(r) => ChargeKeepsInv(s, c, answer);
    case Returned(_) =>
    case Threw =>
    case _ => SavingKeepsInv(s, c, answer);
  }

  /** Leaving a call where it is, for the catch block or for good. */
  lemma LeaveKeepsInv(s: State, c: nat, p: Phase)
    requires Inv(s) && c < |s.calls| && !s.calls[c].phase.Returned?
    requires p == Threw || (p.Failing? && Drives(s.calls[c], p.row))
    ensures Inv(Goto(s, c, p))
  {
    var s' := Goto(s, c, p);
    assert CallOk(s, c);
    forall r: nat | r < |s.rows| && s.owner[r] == c ensures RowOk(s', r) {
      OwnRow(s, c, r);
      assert RowOk(s, r);
    }
    LocalKeepsInv(s, s', c);
  }

  /** Every find, insert, save and charge of every call, and every throw and crash. */
  lemma {:induction false} EventKeepsInv(s: State, ev: Event)
    requires Inv(s)
    ensures Inv(Apply(s, ev))
  {
    match ev
    case Begin(b, key, amount) => BeginKeepsInv(s, b, key, amount);
    case Throw(c) =>
      if c < |s.calls| && !s.calls[c].phase.Returned? {
        LeaveKeepsInv(s, c, ThrowStep(s, c).calls[c].phase);
      }
    case Crash(c) =>
      if c < |s.calls| && !s.calls[c].phase.Returned? {
        LeaveKeepsInv(s, c, Threw);
      }
    case Step(c, answer) => if c < |s.calls| { StepKeepsInv(s, c, answer); }
  }

  lemma BeginKeepsInv(s: State, b: nat, key: Id, amount: int)
    requires Inv(s)
    ensures Inv(Apply(s, Begin(b, key, amount)))
  {
    var s' := Apply(s, Begin(b, key, amount));
    forall r: nat | r < |s'.rows| ensures RowOk(s', r) {
      assert RowOk(s, r);
    }
    forall c: nat | c < |s'.calls| ensures CallOk(s', c) {
      if c < |s.calls| { assert CallOk(s, c); }
    }
    forall k | k in s'.charged ensures HasRow(s', k) {
      assert HasRow(s, k);
    }
  }

  // ----- whole runs

  function Run(s: State, evs: seq<Event>): State {
    if evs == [] then s else Apply(Run(s, evs[..|evs| - 1]), evs[|evs| - 1])
  }

  const Empty := State([], [], [], [], [], [])

  lemma {:induction false} RunKeepsInv(s: State, evs: seq<Event>)
    requires Inv(s)
    ensures Inv(Run(s, evs))
  {
    hide Inv, Apply;
    if evs != [] {
      RunKeepsInv(s, evs[..|evs| - 1]);
      EventKeepsInv(Run(s, evs[..|evs| - 1]), evs[|evs| - 1]);
    }
  }

  lemma EmptyIsOk()
    ensures Inv(Empty)
  {
  }

  predicate BothReturned(a: Call, b: Call) {
    a.phase.Returned? && b.phase.Returned? && a.key == b.key
  }

  /** In every interleaving each key reaches the gateway at most once, and all calls that return for one key
      return the same payment. */
  lemma {:induction false} ChargedAtMostOnce(evs: seq<Event>, s: State)
    requires s == Run(Empty, evs)
    ensures Distinct(s.charged)
    ensures forall c: nat, d: nat :: c < |s.calls| && d < |s.calls| && BothReturned(s.calls[c], s.calls[d]) ==>
              s.calls[c].phase.row == s.calls[d].phase.row < |s.rows|
  {
    EmptyIsOk();
    RunKeepsInv(Empty, evs);
    forall c: nat, d: nat | c < |s.calls| && d < |s.calls| && BothReturned(s.calls[c], s.calls[d])
      ensures s.calls[c].phase.row == s.calls[d].phase.row < |s.rows|
    {
      assert CallOk(s, c) && CallOk(s, d);
    }
  }

  /** In every interleaving a payment keeps booking, key and amount of the call that inserted it.  It is
      SUCCEEDED exactly when that call has returned and the gateway accepted; once the call has returned it is
      FAILED exactly when the gateway declined. */
  lemma {:induction false} PaymentsAreTheirCalls(evs: seq<Event>, s: State, r: nat)
    requires s == Run(Empty, evs) && r < |s.rows|
    ensures r < |s.owner| && s.owner[r] < |s.calls|
    ensures var row, call := s.rows[r], s.calls[s.owner[r]];
            && row.booking == call.booking && row.key == call.key && row.amount == call.amount
            && (row.status == Payments.Succeeded <==> call.phase == Returned(r) && row.key in s.accepted)
            && (call.phase.Returned? ==>
                 && row.key in s.charged
                 && (row.status == Payments.Failed <==> row.key in s.declined)
                 && (row.key in s.accepted <==> row.key !in s.declined))
            && row.status != Payments.Refunded
  {
    EmptyIsOk();
    RunKeepsInv(Empty, evs);
    assert RowOk(s, r);
  }

  /** Its call is over. */
  predicate Over(s: State, r: nat) {
    r < |s.rows| && r < |s.owner| && s.owner[r] < |s.calls|
    && (s.calls[s.owner[r]].phase.Returned? || s.calls[s.owner[r]].phase.Threw?)
  }

  lemma OverStays(s: State, ev: Event, r: nat)
    requires Inv(s) && Over(s, r)
    ensures Over(Apply(s, ev), r) && Apply(s, ev).rows[r] == s.rows[r]
  {
    hide RowOk, HasRow, StepCall;
    match ev
    case Step(c, a) =>
      if c < |s.calls| {
        assert CallOk(s, c);
        StepLeavesOver(s, c, a, r);
      }
    case _ =>
  }

  /** A step writes no row but the one its call drives. */
  lemma StepLeavesOver(s: State, c: nat, a: Payments.Answer, r: nat)
    requires c < |s.calls| && CallOk(s, c) && Over(s, r) && |s.owner| == |s.rows|
    ensures Over(StepCall(s, c, a), r) && StepCall(s, c, a).rows[r] == s.rows[r]
  {
    hide Payments.PaymentByKey;
    assert !Drives(s.calls[c], r);
  }

  /** A payment whose call is over never changes again. */
  lemma {:induction false} SettledPaymentsStay(s: State, evs: seq<Event>, r: nat)
    requires Inv(s) && Over(s, r)
    ensures Over(Run(s, evs), r) && Run(s, evs).rows[r] == s.rows[r]
  {
    hide Inv, Apply, Over;
    if evs != [] {
      SettledPaymentsStay(s, evs[..|evs| - 1], r);
      RunKeepsInv(s, evs[..|evs| - 1]);
      OverStays(Run(s, evs[..|evs| - 1]), evs[|evs| - 1], r);
    }
  }

  // ----- a call that is not interrupted

  function Times(s: State, ev: Event, n: nat): State {
    if n == 0 then s else Apply(Times(s, ev, n - 1), ev)
  }

  /** All steps of call c, one after the other; without such a provider the second one throws. */
  function Alone(s: State, c: nat, known: bool, a: Payments.Answer): State {
    if known then Times(s, Step(c, a), 5) else Apply(Apply(s, Step(c, a)), Throw(c))
  }

  /** Where the call has got once its row is inserted. */
  lemma AloneFrom(s: State, c: nat, a: Payments.Answer, r: nat)
    requires c < |s.calls| && r < |s.rows| && s.calls[c].phase == Saving(r)
    ensures var s' := Times(s, Step(c, a), 3);
            && s'.rows == s.rows[r := s.rows[r].(status := if a.Accepted? then Payments.Succeeded else Payments.Failed)]
            && s'.calls == s.calls[c := s.calls[c].(phase := if a.Throws() then Threw else Returned(r))]
            && s'.accepted == s.accepted + (if a.MovesMoney() then [s.calls[c].key] else [])
  {
    var s1 := Apply(s, Step(c, a));
    var s2 := Apply(s1, Step(c, a));
    var s3 := Apply(s2, Step(c, a));
    assert Times(s, Step(c, a), 1) == s1;
    assert Times(s, Step(c, a), 2) == s2;
    assert s3.rows[r] == s.rows[r].(status := if a.Accepted? then Payments.Succeeded else Payments.Failed);
  }

  lemma {:induction false} TimesAfter(s: State, ev: Event, m: nat, n: nat)
    ensures Times(s, ev, m + n) == Times(Times(s, ev, m), ev, n)
  {
    hide Apply;
    if n > 0 {
      TimesAfter(s, ev, m, n - 1);
    }
  }

  /** It ends in the rows and the answer of the payment service's whole call: `Payments.Charge`. */
  lemma {:induction false} AloneIsCharge(s: State, c: nat, known: bool, a: Payments.Answer, net: int)
    requires c < |s.calls| && s.calls[c].phase == Finding
    ensures var call := s.calls[c];
            var charged := Payments.Charge(Payments.Db(s.rows, [], net), call.booking, call.key, call.amount, known, a);
            var s' := Alone(s, c, known, a);
            && s'.rows == charged.db.payments && |s'.calls| == |s.calls|
            && s'.calls[c].phase == (if charged.row.Some? then Returned(charged.row.value) else Threw)
            && (charged.db.net - net == if s'.accepted == s.accepted then 0 else call.amount)
            && (s'.accepted == s.accepted || s'.accepted == s.accepted + [call.key])
  {
    hide Times, Payments.PaymentByKey;
    var call := s.calls[c];
    TwoSteps(s, c, a);
    var s2 := Times(s, Step(c, a), 2);
    if known {
      TimesAfter(s, Step(c, a), 2, 3);
      if Payments.PaymentByKey(s.rows, call.key).Some? {
        ReturnedStays(s2, c, a, 3);
      } else {
        AloneFrom(s2, c, a, |s.rows|);
        var r := |s.rows|;
        var row := Payments.Payment(call.booking, call.key, call.amount, Payments.Initiated);
        var st := if a.Accepted? then Payments.Succeeded else Payments.Failed;
        assert (s.rows + [row])[r := row.(status := st)] == s.rows + [row.(status := st)];
      }
    }
  }

  lemma TwoSteps(s: State, c: nat, a: Payments.Answer)
    requires c < |s.calls| && s.calls[c].phase == Finding
    ensures var found := Payments.PaymentByKey(s.rows, s.calls[c].key);
            var call := s.calls[c];
            Times(s, Step(c, a), 2) ==
            if found.Some? then Goto(s, c, Returned(found.value))
            else
              var row := Payments.Payment(call.booking, call.key, call.amount, Payments.Initiated);
              Goto(s.(rows := s.rows + [row], owner := s.owner + [c]), c, Saving(|s.rows|))
  {
    hide Payments.PaymentByKey;
    var s1 := Apply(s, Step(c, a));
    assert Times(s, Step(c, a), 1) == s1;
    var p := Saving(|s.rows|);
    assert s1.calls[c := s1.calls[c].(phase := p)] == s.calls[c := s.calls[c].(phase := p)];
  }

  lemma ReturnedStep(s: State, c: nat, a: Payments.Answer)
    requires c < |s.calls| && s.calls[c].phase.Returned?
    ensures Apply(s, Step(c, a)) == s
  {
  }

  lemma {:induction false} ReturnedStays(s: State, c: nat, a: Payments.Answer, n: nat)
    requires c < |s.calls| && s.calls[c].phase.Returned?
    ensures Times(s, Step(c, a), n) == s
  {
    hide Apply;
    if n > 0 {
      ReturnedStays(s, c, a, n - 1);
      ReturnedStep(s, c, a);
    }
  }
}
