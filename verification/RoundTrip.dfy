/** What is encoded is decoded again: exactly, but for the sign of a zero. */
module RoundTrip {
  import opened Basics
  import opened Wire
  import opened WireLaws

  // ----- the records of an encodable message are well-formed

  lemma {:induction false} FieldRecsOk(schema: seq<Kind>, n: nat, f: Field)
    requires 1 <= n <= |schema| < 0x2000_0000 && FieldEncodable(schema[n - 1], f)
    ensures RecsOk(schema, FieldRecs(schema[n - 1], n, f))
    decreases f, 1
  {
    match schema[n - 1]
    case Str => assert RecOk(schema, BytesRec(n, f.bytes));
    case Strs =>
      forall i | 0 <= i < |f.all| ensures RecOk(schema, BytesRec(n, f.all[i])) {
      }
    case Flag => assert RecOk(schema, VarintRec(n, 1));
    case Num => assert RecOk(schema, Fixed64Rec(n, f.bits));
    case Sub(s) =>
      if f.msg.Some? {
        RecordsAreOk(s, f.msg.value);
        assert RecOk(schema, NestedRec(n, RecordsOf(s, f.msg.value)));
      }
    case Subs(s) => NestedRecsOk(schema, s, n, f.msgs);
  }

  lemma {:induction false} NestedRecsOk(schema: seq<Kind>, s: seq<Kind>, n: nat, ms: seq<Message>)
    requires 1 <= n <= |schema| < 0x2000_0000 && schema[n - 1] == Subs(s)
    requires forall i :: 0 <= i < |ms| ==> Encodable(s, ms[i]) && |Encode(s, ms[i])| < TWO_32
    ensures RecsOk(schema, NestedRecs(s, n, ms))
    decreases ms, 0
  {
    if ms != [] {
      var last := ms[|ms| - 1];
      NestedRecsOk(schema, s, n, ms[..|ms| - 1]);
      RecordsAreOk(s, last);
      assert RecOk(schema, NestedRec(n, RecordsOf(s, last)));
    }
  }

  lemma {:induction false} RecordsUpToOk(schema: seq<Kind>, m: Message, n: nat)
    requires Encodable(schema, m) && n <= |schema|
    ensures RecsOk(schema, RecordsUpTo(schema, m, n))
    decreases m, n
  {
    if n > 0 {
      RecordsUpToOk(schema, m, n - 1);
      FieldRecsOk(schema, n, m.fields[n - 1]);
    }
  }

  lemma {:induction false} RecordsAreOk(schema: seq<Kind>, m: Message)
    requires Encodable(schema, m)
    ensures RecsOk(schema, RecordsOf(schema, m))
    decreases m, |schema| + 1
  {
    RecordsUpToOk(schema, m, |schema|);
  }

  // ----- folding the records of a field gives the field

  /** Message m with field number n replaced. */
  function With(m: Message, n: nat, f: Field): Message
    requires 1 <= n <= |m.fields|
  {
    Message(m.fields[n - 1 := f])
  }

  lemma {:induction false} FoldOne(schema: seq<Kind>, m: Message, r: Rec)
    requires Sized(schema, m)
    ensures Fold(schema, m, [r]) == ApplyRec(schema, m, r)
  {
    assert [r][1..] == [];
    assert Fold(schema, ApplyRec(schema, m, r), []) == ApplyRec(schema, m, r);
  }

  lemma {:induction false} TextsFold(schema: seq<Kind>, m: Message, n: nat, all: seq<seq<byte>>)
    requires Sized(schema, m) && 1 <= n <= |schema| && schema[n - 1] == Strs && m.fields[n - 1] == Texts([])
    ensures Fold(schema, m, TextRecs(n, all)) == With(m, n, Texts(all))
    decreases |all|
  {
    if all == [] {
      assert With(m, n, Texts([])) == m;
    } else {
      var k := |all| - 1;
      TextsFold(schema, m, n, all[..k]);
      assert TextRecs(n, all) == TextRecs(n, all[..k]) + [BytesRec(n, all[k])];
      FoldAppend(schema, m, TextRecs(n, all[..k]), [BytesRec(n, all[k])]);
      FoldOne(schema, With(m, n, Texts(all[..k])), BytesRec(n, all[k]));
      assert all[..k] + [all[k]] == all;
      assert With(With(m, n, Texts(all[..k])), n, Texts(all)) == With(m, n, Texts(all));
    }
  }

  lemma {:induction false} NestedFold(schema: seq<Kind>, s: seq<Kind>, m: Message, n: nat, ms: seq<Message>)
    requires Sized(schema, m) && 1 <= n <= |schema| && schema[n - 1] == Subs(s) && m.fields[n - 1] == Many([])
    requires forall i :: 0 <= i < |ms| ==> Encodable(s, ms[i])
    ensures Fold(schema, m, NestedRecs(s, n, ms)) == With(m, n, Many(CanonAll(ms)))
    decreases ms, 0
  {
    if ms == [] {
      assert With(m, n, Many([])) == m;
    } else {
      var k := |ms| - 1;
      NestedFold(schema, s, m, n, ms[..k]);
      var r := NestedRec(n, RecordsOf(s, ms[k]));
      FoldAppend(schema, m, NestedRecs(s, n, ms[..k]), [r]);
      FoldOne(schema, With(m, n, Many(CanonAll(ms[..k]))), r);
      RecordsFold(s, ms[k]);
      assert With(With(m, n, Many(CanonAll(ms[..k]))), n, Many(CanonAll(ms))) == With(m, n, Many(CanonAll(ms)));
    }
  }

  lemma {:induction false} ScalarFolds(schema: seq<Kind>, m: Message, n: nat, f: Field)
    requires Sized(schema, m) && 1 <= n <= |schema| && m.fields[n - 1] == Default(schema[n - 1])
    requires FieldEncodable(schema[n - 1], f) && !f.One? && !f.Many?
    ensures Fold(schema, m, FieldRecs(schema[n - 1], n, f)) == With(m, n, CanonField(f))
  {
    hide Fold, Canon, CanonAll, RecordsOf, NestedRecs;
    FoldNone(schema, m);
    assert With(m, n, Default(schema[n - 1])) == m;
    match schema[n - 1]
    case Str => FoldOne(schema, m, BytesRec(n, f.bytes));
    case Strs => TextsFold(schema, m, n, f.all);
    case Flag => FoldOne(schema, m, VarintRec(n, 1));
    case Num => FoldOne(schema, m, Fixed64Rec(n, f.bits));
  }

  lemma {:induction false} FoldNone(schema: seq<Kind>, m: Message)
    requires Sized(schema, m)
    ensures Fold(schema, m, []) == m
  {
  }

  lemma {:induction false} FieldFolds(schema: seq<Kind>, m: Message, n: nat, f: Field)
    requires Sized(schema, m) && 1 <= n <= |schema| && m.fields[n - 1] == Default(schema[n - 1])
    requires FieldEncodable(schema[n - 1], f)
    ensures Fold(schema, m, FieldRecs(schema[n - 1], n, f)) == With(m, n, CanonField(f))
    decreases f, 1
  {
    hide Fold, Canon, CanonAll, RecordsOf, NestedRecs, Base, ApplyRec;
    match schema[n - 1]
    case Sub(s) =>
      FoldNone(schema, m);
      assert With(m, n, One(None)) == m;
      if f.msg.Some? {
        SubFolds(schema, m, n, s, f.msg.value);
        RecordsFold(s, f.msg.value);
      }
    case Subs(s) => NestedFold(schema, s, m, n, f.msgs);
    case _ => ScalarFolds(schema, m, n, f);
  }

  lemma {:induction false} SubFolds(schema: seq<Kind>, m: Message, n: nat, s: seq<Kind>, sub: Message)
    requires Sized(schema, m) && 1 <= n <= |schema| && schema[n - 1] == Sub(s)
    ensures Fold(schema, m, [NestedRec(n, RecordsOf(s, sub))])
            == With(m, n, One(Some(Fold(s, Base(s), RecordsOf(s, sub)))))
  {
    hide Fold, RecordsOf;
    FoldOne(schema, m, NestedRec(n, RecordsOf(s, sub)));
  }

  /** The first n fields as decoded, the others still empty. */
  function Partly(schema: seq<Kind>, m: Message, n: nat): Message
    requires n <= |schema| == |m.fields|
  {
    Message(CanonFields(m.fields[..n]) + Base(schema).fields[n..])
  }

  lemma {:induction false} CanonFieldsAt(fs: seq<Field>, n: nat)
    requires n < |fs|
    ensures CanonFields(fs[..n + 1]) == CanonFields(fs[..n]) + [CanonField(fs[n])]
  {
    assert fs[..n + 1][..n] == fs[..n];
  }

  lemma {:induction false} PartlyNext(schema: seq<Kind>, m: Message, n: nat)
    requires 1 <= n <= |schema| == |m.fields|
    ensures Partly(schema, m, n - 1).fields[n - 1] == Default(schema[n - 1])
    ensures With(Partly(schema, m, n - 1), n, CanonField(m.fields[n - 1])) == Partly(schema, m, n)
  {
    CanonFieldsAt(m.fields, n - 1);
  }

  lemma {:induction false} NextFieldFolds(schema: seq<Kind>, m: Message, n: nat)
    requires 1 <= n <= |schema| == |m.fields| && FieldEncodable(schema[n - 1], m.fields[n - 1])
    requires Sized(schema, Partly(schema, m, n - 1))
    ensures Fold(schema, Partly(schema, m, n - 1), FieldRecs(schema[n - 1], n, m.fields[n - 1])) == Partly(schema, m, n)
    decreases m.fields[n - 1], 2
  {
    PartlyNext(schema, m, n);
    FieldFolds(schema, Partly(schema, m, n - 1), n, m.fields[n - 1]);
  }

  lemma {:induction false} StepFolds(schema: seq<Kind>, m: Message, n: nat)
    requires 1 <= n <= |schema| == |m.fields|
    requires Fold(schema, Base(schema), RecordsUpTo(schema, m, n - 1)) == Partly(schema, m, n - 1)
    requires Sized(schema, Partly(schema, m, n - 1))
    requires Fold(schema, Partly(schema, m, n - 1), FieldRecs(schema[n - 1], n, m.fields[n - 1]))
             == Partly(schema, m, n)
    ensures Fold(schema, Base(schema), RecordsUpTo(schema, m, n)) == Partly(schema, m, n)
  {
    FoldAppend(schema, Base(schema), RecordsUpTo(schema, m, n - 1), FieldRecs(schema[n - 1], n, m.fields[n - 1]));
  }

  lemma {:induction false} RecordsUpToFold(schema: seq<Kind>, m: Message, n: nat)
    requires Encodable(schema, m) && n <= |schema|
    ensures Fold(schema, Base(schema), RecordsUpTo(schema, m, n)) == Partly(schema, m, n)
    decreases m, n
  {
    if n == 0 {
      assert CanonFields(m.fields[..0]) == [];
      assert Partly(schema, m, 0).fields == Base(schema).fields;
    } else {
      RecordsUpToFold(schema, m, n - 1);
      NextFieldFolds(schema, m, n);
      StepFolds(schema, m, n);
    }
  }

  lemma {:induction false} RecordsFold(schema: seq<Kind>, m: Message)
    requires Encodable(schema, m)
    ensures Fold(schema, Base(schema), RecordsOf(schema, m)) == Canon(m)
    decreases m, |schema| + 1
  {
    RecordsUpToFold(schema, m, |schema|);
    assert m.fields[..|schema|] == m.fields;
    assert Partly(schema, m, |schema|).fields == CanonFields(m.fields);
  }

  /** Decoding an encoding gives the message back, with negative zeros made positive: `encode` takes a
      negative zero for a default and leaves it out. */
  lemma {:induction false} DecodeOfEncode(schema: seq<Kind>, m: Message)
    requires Encodable(schema, m)
    ensures Decode(schema, Encode(schema, m)) == Some(Canon(m))
  {
    RecordsAreOk(schema, m);
    DecodeWritten(schema, RecordsOf(schema, m));
    RecordsFold(schema, m);
  }

  /** No double in the message, at any level, is a negative zero. */
  predicate NoNegativeZero(m: Message)
    decreases m, 1
  {
    forall i :: 0 <= i < |m.fields| ==> FieldHasNone(m.fields[i])
  }

  predicate FieldHasNone(f: Field)
    decreases f, 0
  {
    match f
    case Real(bits) => bits != NEGATIVE_ZERO
    case One(Some(m)) => NoNegativeZero(m)
    case Many(ms) => forall i :: 0 <= i < |ms| ==> NoNegativeZero(ms[i])
    case _ => true
  }

  lemma {:induction false} CanonFieldIff(f: Field)
    ensures CanonField(f) == f <==> FieldHasNone(f)
    decreases f, 0
  {
    match f
    case One(Some(m)) => CanonIff(m);
    case Many(ms) => CanonAllIff(ms);
    case _ =>
  }

  lemma {:induction false} CanonAllIff(ms: seq<Message>)
    ensures CanonAll(ms) == ms <==> forall i :: 0 <= i < |ms| ==> NoNegativeZero(ms[i])
    decreases ms, 1
  {
    if ms != [] {
      var k := |ms| - 1;
      CanonAllIff(ms[..k]);
      CanonIff(ms[k]);
      assert ms == ms[..k] + [ms[k]];
    }
  }

  lemma {:induction false} CanonFieldsIff(fs: seq<Field>)
    ensures CanonFields(fs) == fs <==> forall i :: 0 <= i < |fs| ==> FieldHasNone(fs[i])
    decreases fs, 1
  {
    if fs != [] {
      var k := |fs| - 1;
      CanonFieldsIff(fs[..k]);
      CanonFieldIff(fs[k]);
      assert fs == fs[..k] + [fs[k]];
    }
  }

  lemma {:induction false} CanonIff(m: Message)
    ensures Canon(m) == m <==> NoNegativeZero(m)
    decreases m, 2
  {
    CanonFieldsIff(m.fields);
  }

  /** The round trip is exact if and only if no double in the message is a negative zero. */
  lemma {:induction false} RoundTripIff(schema: seq<Kind>, m: Message)
    requires Encodable(schema, m)
    ensures Decode(schema, Encode(schema, m)) == Some(m) <==> NoNegativeZero(m)
  {
    DecodeOfEncode(schema, m);
    CanonIff(m);
  }
}
