/** An embedded message that is sent in two records.  "Last One Wins" in the Protocol Buffers Encoding
    guide merges the two; the generated decoder assigns.  When does that come to the same? */
module EmbeddedMessages {
  import opened Basics
  import opened Wire
  import opened WireLaws
  import opened RoundTrip
  import opened Messages

  predicate Repeated(k: Kind) {
    k.Strs? || k.Subs?
  }

  /** A known record for field number n is among them. */
  predicate Sets(schema: seq<Kind>, rs: seq<Rec>, n: nat) {
    exists j :: 0 <= j < |rs| && rs[j].field == n && Knows(schema, rs[j])
  }

  function Members(f: Field): nat {
    |TextsOf(f)| + |MessagesOf(f)|
  }

  // ----- one field, folded from two different starts

  /** What is known of a field of two messages after the same records were applied to both. */
  predicate SideBySide(k: Kind, f: Field, g: Field, f': Field, g': Field, set': bool) {
    && FieldTyped(k, f') && FieldTyped(k, g')
    && (f == g ==> f' == g')
    && (!set' ==> f' == f && g' == g)
    && (set' && !Repeated(k) ==> f' == g')
    && (Repeated(k) ==> Members(f') - Members(f) == Members(g') - Members(g))
  }

  lemma {:induction false} StepSideBySide(schema: seq<Kind>, m: Message, m': Message, r: Rec, i: nat)
    requires Sized(schema, m) && Sized(schema, m') && i < |schema| && RecOk(schema, r)
    requires FieldTyped(schema[i], m.fields[i]) && FieldTyped(schema[i], m'.fields[i])
    ensures SideBySide(schema[i], m.fields[i], m'.fields[i], ApplyRec(schema, m, r).fields[i],
                       ApplyRec(schema, m', r).fields[i], r.field == i + 1 && Knows(schema, r))
  {
    hide Fold;
  }

  lemma {:induction false} FoldsSideBySide(schema: seq<Kind>, m: Message, m': Message, rs: seq<Rec>, i: nat)
    requires Sized(schema, m) && Sized(schema, m') && i < |schema| && RecsOk(schema, rs)
    requires FieldTyped(schema[i], m.fields[i]) && FieldTyped(schema[i], m'.fields[i])
    ensures SideBySide(schema[i], m.fields[i], m'.fields[i], Fold(schema, m, rs).fields[i],
                       Fold(schema, m', rs).fields[i], Sets(schema, rs, i + 1))
    decreases |rs|
  {
    hide ApplyRec, RecOk, Knows;
    if rs != [] {
      StepSideBySide(schema, m, m', rs[0], i);
      FoldsSideBySide(schema, ApplyRec(schema, m, rs[0]), ApplyRec(schema, m', rs[0]), rs[1..], i);
      SetsNext(schema, rs, i + 1);
    }
  }

  lemma {:induction false} SetsNext(schema: seq<Kind>, rs: seq<Rec>, n: nat)
    requires rs != []
    ensures Sets(schema, rs, n) <==> (rs[0].field == n && Knows(schema, rs[0])) || Sets(schema, rs[1..], n)
  {
    hide Knows;
    if j :| 0 < j < |rs| && rs[j].field == n && Knows(schema, rs[j]) {
      assert rs[1..][j - 1] == rs[j];
    }
  }

  // ----- the second record alone, or both

  /** What the first records left in a field is a default, or the second ones overwrite it. */
  predicate LeavesNothing(schema: seq<Kind>, xs: seq<Rec>, ys: seq<Rec>, i: nat)
    requires i < |schema|
  {
    Fold(schema, Base(schema), xs).fields[i] == Default(schema[i]) || (!Repeated(schema[i]) && Sets(schema, ys, i + 1))
  }

  lemma {:induction false} FieldAgreesIff(schema: seq<Kind>, xs: seq<Rec>, ys: seq<Rec>, i: nat)
    requires RecsOk(schema, xs) && RecsOk(schema, ys) && i < |schema|
    ensures Fold(schema, Fold(schema, Base(schema), xs), ys).fields[i] == Fold(schema, Base(schema), ys).fields[i]
            <==> LeavesNothing(schema, xs, ys, i)
  {
    hide Fold, RecsOk, Sets;
    FoldsSideBySide(schema, Base(schema), Base(schema), xs, i);
    FoldsSideBySide(schema, Fold(schema, Base(schema), xs), Base(schema), ys, i);
  }

  /** Merging two parts gives the second alone if and only if the first leaves nothing in any field. */
  lemma {:induction false} MergeIsSecondIff(schema: seq<Kind>, xs: seq<Rec>, ys: seq<Rec>)
    requires RecsOk(schema, xs) && RecsOk(schema, ys)
    ensures Fold(schema, Base(schema), xs + ys) == Fold(schema, Base(schema), ys)
            <==> forall i :: 0 <= i < |schema| ==> LeavesNothing(schema, xs, ys, i)
  {
    hide Fold, RecsOk, LeavesNothing;
    FoldAppend(schema, Base(schema), xs, ys);
    var merged, second := Fold(schema, Fold(schema, Base(schema), xs), ys), Fold(schema, Base(schema), ys);
    forall i | 0 <= i < |schema| ensures merged.fields[i] == second.fields[i] <==> LeavesNothing(schema, xs, ys, i) {
      FieldAgreesIff(schema, xs, ys, i);
    }
    assert merged == second <==> merged.fields == second.fields;
  }

  // ----- the decoder

  lemma {:induction false} EmbeddedTwice(schema: seq<Kind>, s: seq<Kind>, n: nat, m: Message, xs: seq<Rec>,
                                         ys: seq<Rec>)
    requires Sized(schema, m) && 1 <= n <= |schema| && schema[n - 1] == Sub(s)
    ensures Fold(schema, m, [NestedRec(n, xs)] + [NestedRec(n, ys)]) == With(m, n, One(Some(Fold(s, Base(s), ys))))
  {
    var once := ApplyRec(schema, m, NestedRec(n, xs));
    FoldAppend(schema, m, [NestedRec(n, xs)], [NestedRec(n, ys)]);
    FoldOne(schema, m, NestedRec(n, xs));
    FoldOne(schema, once, NestedRec(n, ys));
    assert ApplyRec(schema, once, NestedRec(n, ys)).fields == With(m, n, One(Some(Fold(s, Base(s), ys)))).fields;
  }

  /** Of two records of an embedded message only the last counts. */
  lemma {:induction false} LastEmbeddedMessageReplaces(schema: seq<Kind>, s: seq<Kind>, n: nat, xs: seq<Rec>,
                                                       ys: seq<Rec>)
    requires 1 <= n <= |schema| < 0x2000_0000 && schema[n - 1] == Sub(s)
    requires RecsOk(s, xs) && RecsOk(s, ys) && |Written(xs)| < TWO_32 && |Written(ys)| < TWO_32
    ensures Decode(schema, Written([NestedRec(n, xs)] + [NestedRec(n, ys)])) ==
            Some(With(Base(schema), n, One(Some(Fold(s, Base(s), ys)))))
  {
    assert RecOk(schema, NestedRec(n, xs)) && RecOk(schema, NestedRec(n, ys));
    EmbeddedTwice(schema, s, n, Base(schema), xs, ys);
    DecodeWritten(schema, [NestedRec(n, xs)] + [NestedRec(n, ys)]);
  }

  lemma {:induction false} EmbeddedOnce(schema: seq<Kind>, s: seq<Kind>, n: nat, xs: seq<Rec>)
    requires 1 <= n <= |schema| < 0x2000_0000 && schema[n - 1] == Sub(s)
    requires RecsOk(s, xs) && |Written(xs)| < TWO_32
    ensures Decode(schema, Written([NestedRec(n, xs)])) == Some(With(Base(schema), n, One(Some(Fold(s, Base(s), xs)))))
  {
    assert RecOk(schema, NestedRec(n, xs));
    FoldOne(schema, Base(schema), NestedRec(n, xs));
    DecodeWritten(schema, [NestedRec(n, xs)]);
  }

  /** An embedded message in two records decodes as the message in one record, which is the merge of the
      two, if and only if the first leaves nothing that the second does not overwrite. */
  lemma {:induction false} SplitDecodesMergedIff(schema: seq<Kind>, s: seq<Kind>, n: nat, xs: seq<Rec>, ys: seq<Rec>)
    requires 1 <= n <= |schema| < 0x2000_0000 && schema[n - 1] == Sub(s)
    requires RecsOk(s, xs) && RecsOk(s, ys) && |Written(xs + ys)| < TWO_32
    ensures Decode(schema, Written([NestedRec(n, xs)] + [NestedRec(n, ys)]))
            == Decode(schema, Written([NestedRec(n, xs + ys)]))
            <==> forall i :: 0 <= i < |s| ==> LeavesNothing(s, xs, ys, i)
  {
    hide Fold, LeavesNothing, Written, Decode;
    WrittenAppend(xs, ys);
    LastEmbeddedMessageReplaces(schema, s, n, xs, ys);
    EmbeddedOnce(schema, s, n, xs + ys);
    MergeIsSecondIff(s, xs, ys);
    WithIsInjective(Base(schema), n, Fold(s, Base(s), xs + ys), Fold(s, Base(s), ys));
  }

  lemma {:induction false} WithIsInjective(m: Message, n: nat, a: Message, b: Message)
    requires 1 <= n <= |m.fields|
    ensures With(m, n, One(Some(a))) == With(m, n, One(Some(b))) <==> a == b
  {
    if a != b {
      assert With(m, n, One(Some(a))).fields[n - 1] != With(m, n, One(Some(b))).fields[n - 1];
    }
  }

  /** A payment in two records, the id in one and the booking in the other: the id is lost. */
  lemma {:induction false} SplitPaymentLosesItsId()
    ensures var xs, ys := [BytesRec(1, [65])], [BytesRec(2, [66])];
            && Decode(INITIATE_PAYMENT_RESPONSE, Written([NestedRec(1, xs)] + [NestedRec(1, ys)]))
               == Some(With(Base(INITIATE_PAYMENT_RESPONSE), 1, One(Some(With(Base(PAYMENT_INFO), 2, Text([66]))))))
            && Decode(INITIATE_PAYMENT_RESPONSE, Written([NestedRec(1, xs + ys)]))
               != Decode(INITIATE_PAYMENT_RESPONSE, Written([NestedRec(1, xs)] + [NestedRec(1, ys)]))
  {
    hide Decode;
    var xs, ys := [BytesRec(1, [65])], [BytesRec(2, [66])];
    assert RecsOk(PAYMENT_INFO, xs) && RecsOk(PAYMENT_INFO, ys);
    FoldOne(PAYMENT_INFO, Base(PAYMENT_INFO), xs[0]);
    FoldOne(PAYMENT_INFO, Base(PAYMENT_INFO), ys[0]);
    WrittenAppend(xs, ys);
    assert Written(xs) == [10, 1, 65] && Written(ys) == [18, 1, 66];
    LastEmbeddedMessageReplaces(INITIATE_PAYMENT_RESPONSE, PAYMENT_INFO, 1, xs, ys);
    SplitDecodesMergedIff(INITIATE_PAYMENT_RESPONSE, PAYMENT_INFO, 1, xs, ys);
    assert !LeavesNothing(PAYMENT_INFO, xs, ys, 0);
  }
}
