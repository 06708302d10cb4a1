/** The laws of the codec: decoding folds over records, unknown records are ignored at every level, and
    what was encoded is decoded again. */
module WireLaws {
  import opened Basics
  import opened Wire

  /** `bs` stands in the buffer at `pos`. */
  predicate At(buf: seq<byte>, pos: nat, bs: seq<byte>) {
    pos + |bs| <= |buf| && buf[pos..pos + |bs|] == bs
  }

  lemma {:induction false} AtParts(buf: seq<byte>, pos: nat, a: seq<byte>, b: seq<byte>)
    requires At(buf, pos, a + b)
    ensures At(buf, pos, a) && At(buf, pos + |a|, b)
  {
    var c := buf[pos..pos + |a + b|];
    assert buf[pos..pos + |a|] == c[..|a|];
    assert buf[pos + |a|..pos + |a + b|] == c[|a|..];
  }

  // ----- varints

  function Pow128(k: nat): nat {
    if k == 0 then 1 else 128 * Pow128(k - 1)
  }

  lemma {:induction false} VarintRoundTrip(buf: seq<byte>, pos: nat, n: nat, k: nat)
    requires n < Pow128(k) && k > 0 && At(buf, pos, EncVarint(n))
    ensures Varint(buf, pos, k) == Ok(n, pos + |EncVarint(n)|)
    decreases k
  {
    var bs := EncVarint(n);
    assert buf[pos] == bs[0] by { assert buf[pos..pos + |bs|][0] == buf[pos]; }
    if n >= 128 {
      assert bs == [n % 128 + 128] + EncVarint(n / 128);
      AtParts(buf, pos, [n % 128 + 128], EncVarint(n / 128));
      assert k > 1 && n / 128 < Pow128(k - 1);
      VarintRoundTrip(buf, pos + 1, n / 128, k - 1);
    }
  }

  lemma {:induction false} TenBytesSuffice(n: nat)
    requires n < TWO_64
    ensures n < Pow128(10)
  {
    assert Pow128(2) == 0x4000;
    assert Pow128(4) == 0x1000_0000;
    assert Pow128(6) == 0x400_0000_0000;
    assert Pow128(8) == 0x100_0000_0000_0000;
    assert Pow128(10) == 0x40_0000_0000_0000_0000;
  }

  lemma {:induction false} Uint32RoundTrip(buf: seq<byte>, pos: nat, n: nat)
    requires n < TWO_32 && At(buf, pos, EncVarint(n))
    ensures Uint32(buf, pos) == Ok(n, pos + |EncVarint(n)|)
  {
    TenBytesSuffice(n);
    VarintRoundTrip(buf, pos, n, 10);
  }

  lemma {:induction false} SkipsVarint(buf: seq<byte>, pos: nat, n: nat)
    requires At(buf, pos, EncVarint(n))
    ensures SkipVarint(buf, pos) == Ok((), pos + |EncVarint(n)|)
    decreases n
  {
    var bs := EncVarint(n);
    assert buf[pos] == bs[0] by { assert buf[pos..pos + |bs|][0] == buf[pos]; }
    if n >= 128 {
      assert bs == [n % 128 + 128] + EncVarint(n / 128);
      AtParts(buf, pos, [n % 128 + 128], EncVarint(n / 128));
      SkipsVarint(buf, pos + 1, n / 128);
    }
  }

  lemma {:induction false} DelimitedRoundTrip(buf: seq<byte>, pos: nat, bs: seq<byte>)
    requires |bs| < TWO_32 && At(buf, pos, Prefixed(bs))
    ensures Delimited(buf, pos) == Ok(bs, pos + |Prefixed(bs)|)
  {
    AtParts(buf, pos, EncVarint(|bs|), bs);
    Uint32RoundTrip(buf, pos, |bs|);
  }

  // ----- decoding is a fold over records

  /** A foreign record is skipped: its payload up to the position behind it. */
  lemma {:induction false} SkipsForeign(schema: seq<Kind>, r: Rec, buf: seq<byte>, pos: nat, field: Option<nat>)
    requires RecOk(schema, r) && At(buf, pos, Payload(r)) && (field.Some? ==> field.value == r.field)
    ensures Skip(WireOfRec(r), buf, pos, field) == Ok((), pos + |Payload(r)|)
    decreases r, 1
  {
    hide SkipGroup, Uint32, Written;
    match r
    case VarintRec(_, v) => SkipsVarint(buf, pos, v);
    case Fixed64Rec(_, b) =>
    case Fixed32Rec(_, b) =>
    case BytesRec(_, b) => DelimitedRoundTrip(buf, pos, b);
    case NestedRec(_, rs) => DelimitedRoundTrip(buf, pos, Written(rs));
    case GroupRec(n, rs) => SkipsGroup(n, rs, buf, pos, field);
  }

  /** The records of a group are skipped one by one, groups in it by their own end tags. */
  lemma {:induction false} SkipsGroup(n: nat, rs: seq<Rec>, buf: seq<byte>, pos: nat, field: Option<nat>)
    requires 1 <= n < 0x2000_0000 && RecsOk([], rs) && (field.Some? ==> field.value == n)
    requires At(buf, pos, Written(rs) + EncVarint(n * 8 + 4))
    ensures SkipGroup(buf, pos, field) == Ok((), pos + |Written(rs) + EncVarint(n * 8 + 4)|)
    decreases rs, 0
  {
    hide Skip, Payload, Uint32, EncVarint, RecOk, SkipGroup;
    if rs == [] {
      assert Written(rs) + EncVarint(n * 8 + 4) == EncVarint(n * 8 + 4);
      TagDecodes(n, 4);
      Uint32RoundTrip(buf, pos, n * 8 + 4);
      GroupStep(n, 4, buf, pos, pos + |EncVarint(n * 8 + 4)|, field);
    } else {
      var r := rs[0];
      var tail := Written(rs[1..]) + EncVarint(n * 8 + 4);
      var first := EncVarint(r.field * 8 + WireOfRec(r)) + Payload(r);
      FieldInRange([], r, rs);
      assert Written(rs) + EncVarint(n * 8 + 4) == first + tail;
      AtParts(buf, pos, first, tail);
      var p := TagIsRead(r, buf, pos);
      SkipsForeign([], r, buf, p, Some(r.field));
      GroupStep(r.field, WireOfRec(r), buf, pos, p, field);
      SkipsGroup(n, rs[1..], buf, pos + |first|, field);
    }
  }

  /** The loop over a group at a tag: an end tag ends it, any other record is skipped. */
  lemma {:induction false} GroupStep(n: nat, wire: nat, buf: seq<byte>, pos: nat, p: nat, field: Option<nat>)
    requires 1 <= n < 0x2000_0000 && wire <= 5 && Uint32(buf, pos) == Ok(n * 8 + wire, p)
    ensures wire == 4 && (field.Some? ==> field.value == n) ==> SkipGroup(buf, pos, field) == Ok((), p)
    ensures wire != 4 && Skip(wire, buf, p, Some(n)).Ok? ==>
              SkipGroup(buf, pos, field) == SkipGroup(buf, Skip(wire, buf, p, Some(n)).pos, field)
  {
    hide Skip, Uint32;
    TagDecodes(n, wire);
  }

  lemma {:induction false} FieldInRange(schema: seq<Kind>, r: Rec, rs: seq<Rec>)
    requires rs != [] && rs[0] == r && RecsOk(schema, rs)
    ensures RecOk(schema, r) && 1 <= r.field < 0x2000_0000
  {
  }

  /** A record of a singular or repeated field without a message is read as its value. */
  lemma {:induction false} ReadsScalar(k: Kind, r: Rec, buf: seq<byte>, pos: nat, old': Field)
    requires RecOk([], r) && !k.Sub? && !k.Subs? && WireOfRec(r) == WireType(k) && At(buf, pos, Payload(r))
    ensures ReadField(k, buf, pos, old') == Ok(Value(k, r, old'), pos + |Payload(r)|)
  {
    hide Nested, Fold, Uint32, Varint, EncVarint, Delimited;
    match k
    case Str => DelimitedRoundTrip(buf, pos, r.bytes);
    case Strs => DelimitedRoundTrip(buf, pos, r.bytes);
    case Flag => TenBytesSuffice(r.value); VarintRoundTrip(buf, pos, r.value, 10);
    case Num =>
  }

  /** A known record is read as its value. */
  lemma {:induction false} ReadsKnown(schema: seq<Kind>, r: Rec, buf: seq<byte>, pos: nat, old': Field)
    requires RecOk(schema, r) && Knows(schema, r) && At(buf, pos, Payload(r))
    ensures ReadField(schema[r.field - 1], buf, pos, old')
            == Ok(Value(schema[r.field - 1], r, old'), pos + |Payload(r)|)
    decreases r, 1
  {
    hide Nested, Fold, Uint32, Varint, EncVarint, Delimited;
    match schema[r.field - 1]
    case Sub(s) => ReadsNested(s, r.recs, buf, pos);
    case Subs(s) => ReadsNested(s, r.recs, buf, pos);
    case _ => ReadsScalar(schema[r.field - 1], r, buf, pos, old');
  }

  /** An embedded message is read as its folded records. */
  lemma {:induction false} ReadsNested(s: seq<Kind>, rs: seq<Rec>, buf: seq<byte>, pos: nat)
    requires RecsOk(s, rs) && |Written(rs)| < TWO_32 && At(buf, pos, Prefixed(Written(rs)))
    ensures Nested(s, buf, pos) == Ok(Fold(s, Base(s), rs), pos + |Prefixed(Written(rs))|)
    decreases rs, 1
  {
    hide DecodeFrom, Nested, Fold, Written, RecOk;
    var n, p := LengthIsRead(buf, pos, Written(rs));
    DecodeFolds(s, rs, buf, p, p + n, Base(s));
    NestedIs(s, buf, pos, n, p, Fold(s, Base(s), rs));
  }

  lemma NestedIs(s: seq<Kind>, buf: seq<byte>, pos: nat, n: nat, p: nat, m: Message)
    requires pos <= p <= |buf| && Uint32(buf, pos) == Ok(n, p) && DecodeFrom(s, buf, p, p + n, Base(s)) == Ok(m, p + n)
    ensures Nested(s, buf, pos) == Ok(m, p + n)
  {
    hide DecodeFrom;
  }

  lemma LengthIsRead(buf: seq<byte>, pos: nat, bs: seq<byte>) returns (n: nat, p: nat)
    requires |bs| < TWO_32 && At(buf, pos, Prefixed(bs))
    ensures n == |bs| && pos <= p && p + n == pos + |Prefixed(bs)| <= |buf|
    ensures Uint32(buf, pos) == Ok(n, p) && At(buf, p, bs)
  {
    n, p := |bs|, pos + |EncVarint(|bs|)|;
    AtParts(buf, pos, EncVarint(|bs|), bs);
    Uint32RoundTrip(buf, pos, |bs|);
  }

  lemma {:induction false} TagDecodes(n: nat, wire: nat)
    requires 1 <= n < 0x2000_0000 && wire < 8
    ensures 0 < n * 8 + wire < TWO_32 && (n * 8 + wire) / 8 == n && (n * 8 + wire) % 8 == wire
  {
  }

  /** A record stands at `pos`: its tag up to p, its payload up to q. */
  predicate RecordAt(schema: seq<Kind>, r: Rec, buf: seq<byte>, pos: nat, p: nat, q: nat, m: Message)
    requires Sized(schema, m)
  {
    && 1 <= r.field < 0x2000_0000 && pos <= p <= q <= |buf|
    && Uint32(buf, pos) == Ok(r.field * 8 + WireOfRec(r), p)
    && (Knows(schema, r) ==>
         ReadField(schema[r.field - 1], buf, p, m.fields[r.field - 1]) ==
         Ok(Value(schema[r.field - 1], r, m.fields[r.field - 1]), q))
    && (!Knows(schema, r) ==> Skip(WireOfRec(r), buf, p, None) == Ok((), q))
  }

  lemma {:induction false} RecordIsRead(schema: seq<Kind>, r: Rec, buf: seq<byte>, pos: nat, m: Message)
    returns (p: nat, q: nat)
    requires Sized(schema, m) && RecOk(schema, r)
    requires At(buf, pos, EncVarint(r.field * 8 + WireOfRec(r)) + Payload(r))
    ensures pos < p && q == pos + |EncVarint(r.field * 8 + WireOfRec(r)) + Payload(r)|
    ensures RecordAt(schema, r, buf, pos, p, q, m)
    decreases r, 2
  {
    p := TagIsRead(r, buf, pos);
    q := p + |Payload(r)|;
    if Knows(schema, r) {
      ReadsKnown(schema, r, buf, p, m.fields[r.field - 1]);
    } else {
      SkipsForeign(schema, r, buf, p, None);
    }
  }

  lemma TagIsRead(r: Rec, buf: seq<byte>, pos: nat) returns (p: nat)
    requires 1 <= r.field < 0x2000_0000 && At(buf, pos, EncVarint(r.field * 8 + WireOfRec(r)) + Payload(r))
    ensures pos < p == pos + |EncVarint(r.field * 8 + WireOfRec(r))|
    ensures Uint32(buf, pos) == Ok(r.field * 8 + WireOfRec(r), p) && At(buf, p, Payload(r))
  {
    p := pos + |EncVarint(r.field * 8 + WireOfRec(r))|;
    AtParts(buf, pos, EncVarint(r.field * 8 + WireOfRec(r)), Payload(r));
    TagDecodes(r.field, WireOfRec(r));
    Uint32RoundTrip(buf, pos, r.field * 8 + WireOfRec(r));
  }

  /** The loop reads a record and goes on behind it with the record applied. */
  lemma {:induction false} LoopStep(schema: seq<Kind>, r: Rec, buf: seq<byte>, pos: nat, end: nat, p: nat, q: nat,
                                    m: Message)
    requires Sized(schema, m) && RecordAt(schema, r, buf, pos, p, q, m) && pos < end
    ensures DecodeFrom(schema, buf, pos, end, m) == DecodeFrom(schema, buf, q, end, ApplyRec(schema, m, r))
  {
    hide ReadField, Value, Skip;
    TagDecodes(r.field, WireOfRec(r));
  }

  lemma FoldNext(schema: seq<Kind>, rs: seq<Rec>, buf: seq<byte>, end: nat, m: Message)
    requires Sized(schema, m)
    ensures rs == [] ==> Fold(schema, m, rs) == m
    ensures rs == [] && end <= |buf| ==> DecodeFrom(schema, buf, end, end, m) == Ok(m, end)
    ensures rs != [] ==> Fold(schema, m, rs) == Fold(schema, ApplyRec(schema, m, rs[0]), rs[1..])
  {
  }

  /** The fold law: the loop of `decode`, started on message m where a sequence of records stands, ends
      behind them with the records folded into m. */
  lemma {:induction false} DecodeFolds(schema: seq<Kind>, rs: seq<Rec>, buf: seq<byte>, pos: nat, end: nat, m: Message)
    requires Sized(schema, m) && RecsOk(schema, rs) && At(buf, pos, Written(rs)) && end == pos + |Written(rs)|
    ensures DecodeFrom(schema, buf, pos, end, m) == Ok(Fold(schema, m, rs), end)
    decreases rs, 0
  {
    hide ApplyRec, Payload, RecordAt, DecodeFrom, Fold;
    FoldNext(schema, rs, buf, end, m);
    if rs != [] {
      var r := rs[0];
      var first := EncVarint(r.field * 8 + WireOfRec(r)) + Payload(r);
      assert RecOk(schema, r);
      assert Written(rs) == first + Written(rs[1..]);
      AtParts(buf, pos, first, Written(rs[1..]));
      var p, q := RecordIsRead(schema, r, buf, pos, m);
      LoopStep(schema, r, buf, pos, end, p, q, m);
      DecodeFolds(schema, rs[1..], buf, q, end, ApplyRec(schema, m, r));
    }
  }

  /** Decoding a whole buffer of records folds them into the empty message. */
  lemma {:induction false} DecodeWritten(schema: seq<Kind>, rs: seq<Rec>)
    requires RecsOk(schema, rs)
    ensures Decode(schema, Written(rs)) == Some(Fold(schema, Base(schema), rs))
  {
    var buf := Written(rs);
    assert buf[0..0 + |buf|] == buf;
    DecodeFolds(schema, rs, buf, 0, |buf|, Base(schema));
  }

  lemma {:induction false} FoldAppend(schema: seq<Kind>, m: Message, xs: seq<Rec>, ys: seq<Rec>)
    requires Sized(schema, m)
    ensures Fold(schema, m, xs + ys) == Fold(schema, Fold(schema, m, xs), ys)
    decreases |xs|
  {
    if xs == [] {
      assert xs + ys == ys;
    } else {
      assert (xs + ys)[1..] == xs[1..] + ys;
      FoldAppend(schema, ApplyRec(schema, m, xs[0]), xs[1..], ys);
    }
  }

  lemma {:induction false} WrittenAppend(xs: seq<Rec>, ys: seq<Rec>)
    ensures Written(xs + ys) == Written(xs) + Written(ys)
    decreases |xs|
  {
    hide Payload, EncVarint;
    if xs == [] {
      assert xs + ys == ys;
    } else {
      assert (xs + ys)[1..] == xs[1..] + ys;
      WrittenAppend(xs[1..], ys);
    }
  }

  /** Concatenating two encodings applies the records of the second to what the first decodes to. */
  lemma {:induction false} DecodeConcatenation(schema: seq<Kind>, xs: seq<Rec>, ys: seq<Rec>)
    requires RecsOk(schema, xs) && RecsOk(schema, ys)
    ensures Decode(schema, Written(xs)).Some? && Sized(schema, Decode(schema, Written(xs)).value)
    ensures Decode(schema, Written(xs) + Written(ys)) == Some(Fold(schema, Decode(schema, Written(xs)).value, ys))
  {
    DecodeWritten(schema, xs);
    DecodeWritten(schema, xs + ys);
    WrittenAppend(xs, ys);
    FoldAppend(schema, Base(schema), xs, ys);
  }

  // ----- unknown fields

  function KnownRec(schema: seq<Kind>, r: Rec): Rec
    decreases r, 0
  {
    if !r.NestedRec? || SubSchema(schema, r.field).None? then r
    else NestedRec(r.field, KnownOnly(SubSchema(schema, r.field).value, r.recs))
  }

  /** The records without those that are foreign to the type, at every level of nesting. */
  function KnownOnly(schema: seq<Kind>, rs: seq<Rec>): seq<Rec>
    decreases rs
  {
    if rs == [] then []
    else (if Knows(schema, rs[0]) then [KnownRec(schema, rs[0])] else []) + KnownOnly(schema, rs[1..])
  }

  lemma {:induction false} KnownRecApplies(schema: seq<Kind>, m: Message, r: Rec)
    requires Sized(schema, m) && Knows(schema, r)
    ensures Knows(schema, KnownRec(schema, r)) && ApplyRec(schema, m, KnownRec(schema, r)) == ApplyRec(schema, m, r)
    decreases r, 1
  {
    hide Fold, KnownOnly;
    if r.NestedRec? && SubSchema(schema, r.field).Some? {
      var s := SubSchema(schema, r.field).value;
      ForeignRecordsAreIgnored(s, Base(s), r.recs);
    }
  }

  /** Foreign records, with an unknown field number or a known one under another wire type, change
      nothing wherever they stand. */
  lemma {:induction false} ForeignRecordsAreIgnored(schema: seq<Kind>, m: Message, rs: seq<Rec>)
    requires Sized(schema, m)
    ensures Fold(schema, m, rs) == Fold(schema, m, KnownOnly(schema, rs))
    decreases rs, 0
  {
    if rs != [] {
      var m' := ApplyRec(schema, m, rs[0]);
      ForeignRecordsAreIgnored(schema, m', rs[1..]);
      if Knows(schema, rs[0]) {
        KnownRecApplies(schema, m, rs[0]);
        var known := KnownOnly(schema, rs);
        assert known == [KnownRec(schema, rs[0])] + KnownOnly(schema, rs[1..]);
        assert known[1..] == KnownOnly(schema, rs[1..]);
      } else {
        assert KnownOnly(schema, rs) == KnownOnly(schema, rs[1..]);
      }
    }
  }

  /** Encodings that differ only in foreign records, at any level, decode to the same message. */
  lemma {:induction false} UnknownFieldTolerance(schema: seq<Kind>, rs: seq<Rec>, rs': seq<Rec>)
    requires RecsOk(schema, rs) && RecsOk(schema, rs') && KnownOnly(schema, rs) == KnownOnly(schema, rs')
    ensures Decode(schema, Written(rs)) == Decode(schema, Written(rs'))
  {
    DecodeWritten(schema, rs);
    DecodeWritten(schema, rs');
    ForeignRecordsAreIgnored(schema, Base(schema), rs);
    ForeignRecordsAreIgnored(schema, Base(schema), rs');
  }

  // ----- encoding

  predicate IsZero(bits: seq<byte>) {
    bits == ZERO || bits == NEGATIVE_ZERO
  }

  function TextRecs(n: nat, all: seq<seq<byte>>): (rs: seq<Rec>)
    ensures |rs| == |all| && forall i :: 0 <= i < |all| ==> rs[i] == BytesRec(n, all[i])
  {
    seq(|all|, i requires 0 <= i < |all| => BytesRec(n, all[i]))
  }

  /** The records of one field: defaults are left out, repeated fields have one record per member. */
  function FieldRecs(k: Kind, n: nat, f: Field): seq<Rec>
    decreases f, 0
  {
    match (k, f)
    case (Str, Text(s)) => if s == [] then [] else [BytesRec(n, s)]
    case (Strs, Texts(all)) => TextRecs(n, all)
    case (Flag, Bit(on)) => if on then [VarintRec(n, 1)] else []
    case (Num, Real(bits)) => if IsZero(bits) then [] else [Fixed64Rec(n, bits)]
    case (Sub(s), One(Some(m))) => [NestedRec(n, RecordsOf(s, m))]
    case (Subs(s), Many(ms)) => NestedRecs(s, n, ms)
    case _ => []
  }

  function NestedRecs(s: seq<Kind>, n: nat, ms: seq<Message>): seq<Rec>
    decreases ms
  {
    if ms == [] then [] else NestedRecs(s, n, ms[..|ms| - 1]) + [NestedRec(n, RecordsOf(s, ms[|ms| - 1]))]
  }

  function RecordsUpTo(schema: seq<Kind>, m: Message, n: nat): seq<Rec>
    requires n <= |schema| && n <= |m.fields|
    decreases m, n
  {
    if n == 0 then [] else RecordsUpTo(schema, m, n - 1) + FieldRecs(schema[n - 1], n, m.fields[n - 1])
  }

  function RecordsOf(schema: seq<Kind>, m: Message): seq<Rec>
    decreases m, |schema| + 1
  {
    if |m.fields| == |schema| then RecordsUpTo(schema, m, |schema|) else []
  }

  /** `encode`. */
  function Encode(schema: seq<Kind>, m: Message): seq<byte> {
    Written(RecordsOf(schema, m))
  }

  /** A message of the type, with field numbers, lengths and doubles in range, at every level. */
  predicate Encodable(schema: seq<Kind>, m: Message)
    decreases m, 0
  {
    |schema| < 0x2000_0000 && |m.fields| == |schema|
    && forall i :: 0 <= i < |schema| ==> FieldEncodable(schema[i], m.fields[i])
  }

  predicate FieldEncodable(k: Kind, f: Field)
    decreases f, 0
  {
    FieldTyped(k, f) &&
    match k
    case Str => |f.bytes| < TWO_32
    case Strs => forall i :: 0 <= i < |f.all| ==> |f.all[i]| < TWO_32
    case Flag => true
    case Num => |f.bits| == 8
    case Sub(s) => f.msg.Some? ==> Encodable(s, f.msg.value) && |Encode(s, f.msg.value)| < TWO_32
    case Subs(s) => forall i :: 0 <= i < |f.msgs| ==> Encodable(s, f.msgs[i]) && |Encode(s, f.msgs[i])| < TWO_32
  }

  function CanonField(f: Field): Field
    decreases f, 0
  {
    match f
    case Real(bits) => if bits == NEGATIVE_ZERO then Real(ZERO) else f
    case One(Some(m)) => One(Some(Canon(m)))
    case Many(ms) => Many(CanonAll(ms))
    case _ => f
  }

  function CanonAll(ms: seq<Message>): (r: seq<Message>)
    ensures |r| == |ms|
    decreases ms
  {
    if ms == [] then [] else CanonAll(ms[..|ms| - 1]) + [Canon(ms[|ms| - 1])]
  }

  function CanonFields(fs: seq<Field>): (r: seq<Field>)
    ensures |r| == |fs|
    decreases fs
  {
    if fs == [] then [] else CanonFields(fs[..|fs| - 1]) + [CanonField(fs[|fs| - 1])]
  }

  /** The message with every negative zero made positive. */
  function Canon(m: Message): Message
    decreases m, 1
  {
    Message(CanonFields(m.fields))
  }
}
