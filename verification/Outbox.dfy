/** The outbox worker: batches of ten pending entries in creation order, each with a budget of five
    handler runs, and how fast that drains the table. */
module Outbox {
  import opened Basics

  const BATCH := 10
  const MAX_RETRIES := 5

  datatype EntryStatus = Pending | Processing | Completed | Failed

  /** A row of the outbox table; `runs` remembers how its handler runs ended, true for a success. */
  datatype Entry = Entry(status: EntryStatus, retries: nat, runs: seq<bool>)

  predicate IsPending(e: Entry) {
    e.status == Pending
  }

  /** The table is listed in creation order: row i is in the batch when it is pending and fewer than ten
      rows before it are. */
  predicate InBatch(es: seq<Entry>, i: nat)
    requires i < |es|
  {
    IsPending(es[i]) && Count(es[..i], IsPending) < BATCH
  }

  /** What one handler run makes of a row. */
  function Handled(e: Entry, ok: bool): Entry {
    if ok then Entry(Completed, e.retries, e.runs + [true])
    else Entry(if e.retries + 1 >= MAX_RETRIES then Failed else Pending, e.retries + 1, e.runs + [false])
  }

  /** One call of `processOutbox`; `ok(i)` says whether the handler of row i succeeds this time. */
  function Poll(es: seq<Entry>, ok: nat -> bool): (es': seq<Entry>)
    ensures |es'| == |es|
    ensures forall i :: 0 <= i < |es| ==> es'[i] == if InBatch(es, i) then Handled(es[i], ok(i)) else es[i]
  {
    seq(|es|, i requires 0 <= i < |es| => if InBatch(es, i) then Handled(es[i], ok(i)) else es[i])
  }

  lemma CountNext(es: seq<Entry>, n: nat)
    requires n < |es|
    ensures Count(es[..n + 1], IsPending) == Count(es[..n], IsPending) + if IsPending(es[n]) then 1 else 0
  {
    assert es[..n + 1] == es[..n] + [es[n]];
    CountSnoc(es[..n], es[n], IsPending);
  }

  class OutboxWorker {
    var entries: seq<Entry>

    constructor (entries: seq<Entry>)
      ensures this.entries == entries
    {
      this.entries := entries;
    }

    method FindPending() returns (batch: seq<nat>)
      ensures Distinct(batch)
      ensures forall i: nat :: i in batch <==> i < |entries| && InBatch(entries, i)
      ensures |batch| == Min(10, Count(entries, IsPending))
    {
      batch := [];
      for n := 0 to |entries|
        invariant Distinct(batch) && forall j :: 0 <= j < |batch| ==> batch[j] < n
        invariant forall i: nat :: i in batch <==> i < n && InBatch(entries, i)
        invariant |batch| == if Count(entries[..n], IsPending) < BATCH then Count(entries[..n], IsPending) else BATCH
      {
        CountNext(entries, n);
        if IsPending(entries[n]) && |batch| < BATCH {
          batch := batch + [n];
        }
      }
      assert entries[..|entries|] == entries;
    }

    method ProcessOutbox(ok: nat -> bool)
      modifies this
      ensures entries == Poll(old(entries), ok)
    {
      var batch := FindPending();
      ghost var before := entries;
      for j := 0 to |batch|
        invariant |entries| == |before|
        invariant forall i: nat :: i < |before| ==>
                  entries[i] == if i in batch[..j] then Handled(before[i], ok(i)) else before[i]
      {
        var b := batch[j];
        assert b in batch;
        assert batch[..j + 1] == batch[..j] + [b];
        assert b !in batch[..j];
        var entry := entries[b];
        entry := entry.(status := Processing);
        entries := entries[b := entry];
        if ok(b) {
          entry := entry.(status := Completed, runs := entry.runs + [true]);
        } else {
          entry := entry.(retries := entry.retries + 1, runs := entry.runs + [false]);
          if entry.retries >= MAX_RETRIES {
            entry := entry.(status := Failed);
          } else {
            entry := entry.(status := Pending);
          }
        }
        entries := entries[b := entry];
      }
      assert batch[..|batch|] == batch;
    }
  }

  // ----- what the statuses mean

  predicate NoSuccess(runs: seq<bool>) {
    forall i :: 0 <= i < |runs| ==> !runs[i]
  }

  /** PENDING: fewer than five runs, none successful.  COMPLETED: one successful run, the last, after fewer
      than five others.  FAILED: exactly five runs, none successful.  PROCESSING is not seen between polls. */
  predicate EntryOk(e: Entry) {
    match e.status
    case Pending => |e.runs| == e.retries < 5 && NoSuccess(e.runs)
    case Processing => false
    case Completed =>
      |e.runs| == e.retries + 1 <= 5 && e.runs[|e.runs| - 1] && NoSuccess(e.runs[..|e.runs| - 1])
    case Failed => |e.runs| == e.retries == 5 && NoSuccess(e.runs)
  }

  predicate EntriesOk(es: seq<Entry>) {
    forall i :: 0 <= i < |es| ==> EntryOk(es[i])
  }

  lemma HandledOk(e: Entry, ok: bool)
    requires EntryOk(e) && IsPending(e)
    ensures EntryOk(Handled(e, ok))
  {
    assert (e.runs + [ok])[..|e.runs|] == e.runs;
  }

  lemma {:induction false} PollKeepsOk(es: seq<Entry>, ok: nat -> bool)
    requires EntriesOk(es)
    ensures EntriesOk(Poll(es, ok))
  {
    forall i | 0 <= i < |es| ensures EntryOk(Poll(es, ok)[i]) {
      if InBatch(es, i) { HandledOk(es[i], ok(i)); }
    }
  }

  // ----- draining

  /** Handler runs a row may still get. */
  function Left(e: Entry): int {
    if IsPending(e) then MAX_RETRIES - e.retries else 0
  }

  function Budget(es: seq<Entry>): int {
    Sum(es, Left)
  }

  function Min(a: int, b: int): int {
    if a < b then a else b
  }

  lemma PollPrefix(es: seq<Entry>, ok: nat -> bool, n: nat)
    requires n <= |es|
    ensures Poll(es, ok)[..n] == Poll(es[..n], ok)
  {
    forall i | 0 <= i < n ensures Poll(es, ok)[i] == Poll(es[..n], ok)[i] {
      assert es[..n][..i] == es[..i];
    }
  }

  lemma PollLastRow(es: seq<Entry>, ok: nat -> bool, n: nat)
    requires |es| == n + 1
    ensures Budget(Poll(es, ok)) == Budget(Poll(es[..n], ok)) + Left(Poll(es, ok)[n])
    ensures Count(Poll(es, ok), IsPending) ==
            Count(Poll(es[..n], ok), IsPending) + if IsPending(Poll(es, ok)[n]) then 1 else 0
  {
    PollPrefix(es, ok, n);
  }

  lemma LastRow(es: seq<Entry>, n: nat)
    requires |es| == n + 1
    ensures Count(es, IsPending) == Count(es[..n], IsPending) + if IsPending(es[n]) then 1 else 0
    ensures Budget(es) == Budget(es[..n]) + Left(es[n])
  {
  }

  lemma NoEntries(ok: nat -> bool)
    ensures Poll([], ok) == [] && Budget([]) == 0 && Count([], IsPending) == 0
  {
  }

  lemma PollLastLeft(es: seq<Entry>, ok: nat -> bool, n: nat)
    requires |es| == n + 1 && EntryOk(es[n])
    ensures InBatch(es, n) ==> Left(Poll(es, ok)[n]) <= Left(es[n]) - 1
    ensures !InBatch(es, n) ==> Poll(es, ok)[n] == es[n]
  {
    if InBatch(es, n) {
      HandledLeft(es[n], ok(n));
    }
  }

  /** A poll costs the table at least one run per row in the batch, and no row becomes pending. */
  lemma {:induction false} PollSpends(es: seq<Entry>, ok: nat -> bool)
    requires EntriesOk(es)
    ensures Budget(Poll(es, ok)) <= Budget(es) - Min(BATCH, Count(es, IsPending))
    ensures Count(Poll(es, ok), IsPending) <= Count(es, IsPending)
  {
    hide Budget, Count, Poll, EntryOk, Left;
    if es == [] {
      NoEntries(ok);
    } else {
      var n := |es| - 1;
      PollSpends(es[..n], ok);
      PollLastRow(es, ok, n);
      PollLastLeft(es, ok, n);
      LastRow(es, n);
    }
  }

  lemma HandledLeft(e: Entry, ok: bool)
    requires EntryOk(e) && IsPending(e)
    ensures Left(Handled(e, ok)) <= Left(e) - 1
  {
  }

  /** Every pending row has at most m runs left. */
  predicate AtMost(es: seq<Entry>, m: int) {
    forall i :: 0 <= i < |es| && IsPending(es[i]) ==> Left(es[i]) <= m
  }

  lemma {:induction false} CountPrefix(es: seq<Entry>, i: nat)
    requires i <= |es|
    ensures Count(es[..i], IsPending) <= Count(es, IsPending)
  {
    if i < |es| {
      CountPrefix(es[..|es| - 1], i);
      assert es[..|es| - 1][..i] == es[..i];
    } else {
      assert es[..i] == es;
    }
  }

  /** With fewer than ten rows pending, a poll serves all of them. */
  lemma SmallPollServesAll(es: seq<Entry>, ok: nat -> bool, m: int)
    requires EntriesOk(es) && AtMost(es, m) && Count(es, IsPending) < BATCH
    ensures AtMost(Poll(es, ok), m - 1)
  {
    forall i | 0 <= i < |es| && IsPending(Poll(es, ok)[i]) ensures Left(Poll(es, ok)[i]) <= m - 1 {
      CountPrefix(es, i);
      if IsPending(es[i]) {
        HandledLeft(es[i], ok(i));
      }
    }
  }

  function Polls(es: seq<Entry>, oks: seq<nat -> bool>): seq<Entry>
    decreases |oks|
  {
    if oks == [] then es else Polls(Poll(es, oks[0]), oks[1..])
  }

  lemma {:induction false} PollsKeepOk(es: seq<Entry>, oks: seq<nat -> bool>)
    requires EntriesOk(es)
    ensures EntriesOk(Polls(es, oks)) && |Polls(es, oks)| == |es|
    decreases |oks|
  {
    if oks != [] {
      PollKeepsOk(es, oks[0]);
      PollsKeepOk(Poll(es, oks[0]), oks[1..]);
    }
  }

  // ----- what a row remembers

  /** The answers of the handler of row i in the polls that ran it. */
  function Answers(es: seq<Entry>, oks: seq<nat -> bool>, i: nat): seq<bool>
    requires i < |es|
    decreases |oks|
  {
    if oks == [] then [] else (if InBatch(es, i) then [oks[0](i)] else []) + Answers(Poll(es, oks[0]), oks[1..], i)
  }

  lemma {:induction false} RunsGrow(es: seq<Entry>, oks: seq<nat -> bool>, i: nat)
    requires i < |es|
    ensures i < |Polls(es, oks)| && Polls(es, oks)[i].runs == es[i].runs + Answers(es, oks, i)
    decreases |oks|
  {
    hide InBatch, Poll;
    if oks != [] {
      PollRuns(es, oks[0], i);
      RunsGrow(Poll(es, oks[0]), oks[1..], i);
    }
  }

  lemma PollRuns(es: seq<Entry>, ok: nat -> bool, i: nat)
    requires i < |es|
    ensures Poll(es, ok)[i].runs == es[i].runs + if InBatch(es, i) then [ok(i)] else []
  {
  }

  /** What a status says about the runs so far. */
  predicate TellsRuns(e: Entry, runs: seq<bool>) {
    && e.runs == runs
    && (e.status == Completed <==> runs != [] && runs[|runs| - 1])
    && (e.status == Failed <==> |runs| == 5 && NoSuccess(runs))
    && (e.status == Pending <==> |runs| < 5 && NoSuccess(runs))
  }

  lemma OkTellsRuns(e: Entry)
    requires EntryOk(e)
    ensures TellsRuns(e, e.runs)
  {
    if e.status == Completed {
      assert e.runs[|e.runs| - 1];
    }
  }

  /** After any polls a row's handler has run as often as it was in the batch, with these answers; the row is
      COMPLETED when the last of them was a success, and FAILED when there are five and none was. */
  lemma {:induction false} RowsTellTheirRuns(es: seq<Entry>, oks: seq<nat -> bool>, i: nat)
    requires EntriesOk(es) && i < |es|
    ensures i < |Polls(es, oks)| && TellsRuns(Polls(es, oks)[i], es[i].runs + Answers(es, oks, i))
  {
    hide TellsRuns, EntryOk, Polls, Answers;
    PollsKeepOk(es, oks);
    RunsGrow(es, oks, i);
    OkTellsRuns(Polls(es, oks)[i]);
  }

  predicate Drained(es: seq<Entry>) {
    forall i :: 0 <= i < |es| ==> es[i].status == Completed || es[i].status == Failed
  }

  lemma {:induction false} SmallTableDrains(es: seq<Entry>, oks: seq<nat -> bool>)
    requires EntriesOk(es) && Count(es, IsPending) < BATCH && AtMost(es, |oks|)
    ensures Drained(Polls(es, oks))
    decreases |oks|
  {
    if oks == [] {
      forall i | 0 <= i < |es| ensures es[i].status == Completed || es[i].status == Failed {
        assert EntryOk(es[i]);
      }
    } else {
      PollKeepsOk(es, oks[0]);
      PollSpends(es, oks[0]);
      SmallPollServesAll(es, oks[0], |oks|);
      SmallTableDrains(Poll(es, oks[0]), oks[1..]);
    }
  }

  lemma {:induction false} BudgetNotNegative(es: seq<Entry>)
    requires EntriesOk(es)
    ensures Budget(es) >= 0
  {
    if es != [] { BudgetNotNegative(es[..|es| - 1]); }
  }

  /** The drain bound: with no new entries, floor(P / 10) + 5 polls finish every entry, where P is the
      number of handler runs the pending entries may still get, whatever the handlers do. */
  lemma {:induction false} DrainBound(es: seq<Entry>, oks: seq<nat -> bool>)
    requires EntriesOk(es) && |oks| >= Budget(es) / 10 + 5
    ensures Drained(Polls(es, oks)) && EntriesOk(Polls(es, oks)) && |Polls(es, oks)| == |es|
    decreases |oks|
  {
    PollsKeepOk(es, oks);
    BudgetNotNegative(es);
    if Count(es, IsPending) < BATCH {
      assert AtMost(es, |oks|);
      SmallTableDrains(es, oks);
    } else {
      PollKeepsOk(es, oks[0]);
      PollSpends(es, oks[0]);
      DrainBound(Poll(es, oks[0]), oks[1..]);
    }
  }
}
