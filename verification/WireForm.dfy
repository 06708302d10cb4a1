/** What stands on the wire, without the functions that write it; and what the decoder makes of bytes that no
    encoder wrote: cut off, ended by a tag, of an unknown wire type. */
module WireForm {
  import opened Basics
  import opened Wire
  import opened WireLaws
  import opened RoundTrip
  import opened EmbeddedMessages
  import opened Messages

  // ----- varints

  /** Seven bits a byte, low bits first. */
  function ValueOf(bs: seq<byte>): nat {
    if bs == [] then 0 else bs[0] % 128 + 128 * ValueOf(bs[1..])
  }

  /** Every byte but the last has its high bit set, and the last is zero only when it stands alone. */
  predicate IsVarint(bs: seq<byte>) {
    && bs != []
    && (forall i :: 0 <= i < |bs| - 1 ==> bs[i] >= 128)
    && bs[|bs| - 1] < 128 && (|bs| > 1 ==> bs[|bs| - 1] > 0)
  }

  lemma {:induction false} EncVarintIsVarint(n: nat)
    ensures IsVarint(EncVarint(n)) && ValueOf(EncVarint(n)) == n
    decreases n
  {
    if n < 128 {
      assert [n][1..] == [];
    } else {
      EncVarintIsVarint(n / 128);
      assert EncVarint(n)[1..] == EncVarint(n / 128);
    }
  }

  lemma {:induction false} VarintIsEncoded(bs: seq<byte>)
    requires IsVarint(bs)
    ensures bs == EncVarint(ValueOf(bs)) && ValueOf(bs) >= if |bs| > 1 then 128 else 0
    decreases |bs|
  {
    var tail := bs[1..];
    assert bs == [bs[0]] + tail;
    if tail == [] {
      assert ValueOf(bs) == bs[0];
    } else {
      forall i | 0 <= i < |tail| - 1 ensures tail[i] >= 128 {
        assert tail[i] == bs[i + 1];
      }
      VarintIsEncoded(tail);
      assert |tail| == 1 ==> tail[0] > 0 && tail[1..] == [];
      var v := ValueOf(tail);
      assert v > 0 && ValueOf(bs) == bs[0] - 128 + 128 * v;
      assert ValueOf(bs) / 128 == v && ValueOf(bs) % 128 == bs[0] - 128;
    }
  }

  /** A varint is the shortest sequence of seven-bit groups with its value, and the only one. */
  lemma {:induction false} EncodedVarintIff(bs: seq<byte>, n: nat)
    ensures bs == EncVarint(n) <==> IsVarint(bs) && ValueOf(bs) == n
  {
    EncVarintIsVarint(n);
    if IsVarint(bs) { VarintIsEncoded(bs); }
  }

  // ----- which records are written

  lemma {:induction false} NestedRecsAre(s: seq<Kind>, n: nat, ms: seq<Message>)
    ensures |NestedRecs(s, n, ms)| == |ms|
    ensures forall i :: 0 <= i < |ms| ==> NestedRecs(s, n, ms)[i] == NestedRec(n, RecordsOf(s, ms[i]))
    decreases |ms|
  {
    hide RecordsOf;
    if ms != [] {
      NestedRecsAre(s, n, ms[..|ms| - 1]);
    }
  }

  /** The field holds its default, or a zero with a sign. */
  predicate Unset(k: Kind, f: Field) {
    f == Default(k) || f == Real(NEGATIVE_ZERO)
  }

  /** The records of a field: none if it is unset, and not more than one unless it is repeated. */
  lemma {:induction false} FieldRecsAre(k: Kind, n: nat, f: Field)
    requires FieldTyped(k, f)
    ensures FieldRecs(k, n, f) == [] <==> Unset(k, f)
    ensures !Repeated(k) ==> |FieldRecs(k, n, f)| <= 1
    ensures forall i :: 0 <= i < |FieldRecs(k, n, f)| ==> FieldRecs(k, n, f)[i].field == n
    ensures Repeated(k) ==> |FieldRecs(k, n, f)| == Members(f)
  {
    hide RecordsOf, NestedRecs;
    match k
    case Subs(s) => NestedRecsAre(s, n, f.msgs);
    case _ =>
  }

  /** In field order, at most one record per singular field, and one at all exactly for the fields that are set. */
  ghost predicate InForm(schema: seq<Kind>, m: Message, rs: seq<Rec>, n: nat)
    requires n <= |schema| == |m.fields|
  {
    && (forall i :: 0 <= i < |rs| ==> 1 <= rs[i].field <= n)
    && (forall i, j :: 0 <= i < j < |rs| ==>
         rs[i].field <= rs[j].field && (rs[i].field == rs[j].field ==> Repeated(schema[rs[i].field - 1])))
    && (forall c: nat :: c < n ==> (HasRecord(rs, c + 1) <==> !Unset(schema[c], m.fields[c])))
  }

  predicate HasRecord(rs: seq<Rec>, n: nat) {
    exists i :: 0 <= i < |rs| && rs[i].field == n
  }

  lemma HasRecordAppend(xs: seq<Rec>, ys: seq<Rec>, n: nat)
    ensures HasRecord(xs + ys, n) <==> HasRecord(xs, n) || HasRecord(ys, n)
  {
    if i :| 0 <= i < |xs| && xs[i].field == n {
      assert (xs + ys)[i].field == n;
    }
    if i :| 0 <= i < |ys| && ys[i].field == n {
      assert (xs + ys)[|xs| + i].field == n;
    }
  }

  lemma AllOfOneField(ys: seq<Rec>, n: nat, c: nat)
    requires forall i :: 0 <= i < |ys| ==> ys[i].field == n
    ensures HasRecord(ys, c) <==> ys != [] && c == n
  {
    assert ys != [] ==> ys[0].field == n;
  }

  lemma NoneOfLater(xs: seq<Rec>, n: nat)
    requires forall i :: 0 <= i < |xs| ==> xs[i].field <= n
    ensures !HasRecord(xs, n + 1)
  {
  }

  lemma {:induction false} FormGrows(schema: seq<Kind>, m: Message, xs: seq<Rec>, ys: seq<Rec>, n: nat)
    requires n < |schema| == |m.fields| && InForm(schema, m, xs, n)
    requires forall i :: 0 <= i < |ys| ==> ys[i].field == n + 1
    requires ys == [] <==> Unset(schema[n], m.fields[n])
    requires !Repeated(schema[n]) ==> |ys| <= 1
    ensures InForm(schema, m, xs + ys, n + 1)
  {
    hide Unset, FieldRecs, HasRecord;
    var rs := xs + ys;
    forall i | 0 <= i < |rs| ensures 1 <= rs[i].field <= n + 1 && (i >= |xs| ==> rs[i].field == n + 1) {
    }
    forall c: nat | c < n + 1
      ensures HasRecord(xs + ys, c + 1) <==> !Unset(schema[c], m.fields[c])
    {
      HasRecordAppend(xs, ys, c + 1);
      AllOfOneField(ys, n + 1, c + 1);
      if c == n { NoneOfLater(xs, n); }
    }
  }

  lemma {:induction false} RecordsUpToInForm(schema: seq<Kind>, m: Message, n: nat)
    requires n <= |schema| == |m.fields| && forall i :: 0 <= i < n ==> FieldTyped(schema[i], m.fields[i])
    ensures InForm(schema, m, RecordsUpTo(schema, m, n), n)
    decreases n
  {
    hide FieldRecs, InForm;
    if n == 0 {
      NothingInForm(schema, m);
    } else {
      RecordsUpToInForm(schema, m, n - 1);
      FieldRecsAre(schema[n - 1], n, m.fields[n - 1]);
      FormGrows(schema, m, RecordsUpTo(schema, m, n - 1), FieldRecs(schema[n - 1], n, m.fields[n - 1]), n - 1);
    }
  }

  lemma NothingInForm(schema: seq<Kind>, m: Message)
    requires |m.fields| == |schema|
    ensures InForm(schema, m, [], 0)
  {
  }

  lemma TypedFields(schema: seq<Kind>, m: Message)
    requires Encodable(schema, m)
    ensures forall i :: 0 <= i < |schema| ==> FieldTyped(schema[i], m.fields[i])
  {
    forall i | 0 <= i < |schema| ensures FieldTyped(schema[i], m.fields[i]) {
      assert FieldEncodable(schema[i], m.fields[i]);
    }
  }

  /** The records of a message. */
  lemma {:induction false} RecordsInForm(schema: seq<Kind>, m: Message)
    requires Encodable(schema, m)
    ensures InForm(schema, m, RecordsOf(schema, m), |schema|)
  {
    TypedFields(schema, m);
    RecordsUpToInForm(schema, m, |schema|);
  }

  /** A message is encoded as nothing if and only if none of its fields is set. */
  lemma {:induction false} EmptyEncodingIff(schema: seq<Kind>, m: Message)
    requires Encodable(schema, m)
    ensures Encode(schema, m) == [] <==> forall i :: 0 <= i < |schema| ==> Unset(schema[i], m.fields[i])
  {
    hide RecordsOf, Unset;
    RecordsInForm(schema, m);
    var rs := RecordsOf(schema, m);
    if rs == [] {
      forall c: nat | c < |schema| ensures Unset(schema[c], m.fields[c]) {
        assert !HasRecord(rs, c + 1);
      }
    } else {
      var c := rs[0].field - 1;
      assert HasRecord(rs, c + 1);
      assert !Unset(schema[c], m.fields[c]);
    }
  }

  // ----- bytes

  lemma FirstRecord(r: Rec, rs: seq<Rec>)
    ensures Written([r] + rs) == EncVarint(r.field * 8 + WireOfRec(r)) + Payload(r) + Written(rs)
    ensures Written([]) == []
  {
    assert ([r] + rs)[1..] == rs;
  }

  lemma SmallVarint(n: nat)
    ensures n < 128 ==> EncVarint(n) == [n]
    ensures 128 <= n < 0x4000 ==> EncVarint(n) == [n % 128 + 128, n / 128]
  {
  }

  /** A short string under a small number. */
  lemma TextBytes(n: nat, b: seq<byte>, rs: seq<Rec>)
    requires n < 16 && |b| < 128
    ensures Written([BytesRec(n, b)] + rs) == [n * 8 + 2, |b|] + b + Written(rs)
  {
    hide Written;
    FirstRecord(BytesRec(n, b), rs);
    SmallVarint(n * 8 + 2);
    SmallVarint(|b|);
  }

  lemma GuideVarint()
    ensures EncVarint(150) == [0x96, 0x01] && EncVarint(300) == [0xAC, 0x02]
    ensures Written([VarintRec(1, 150)]) == [0x08, 0x96, 0x01]
  {
    hide Written, EncVarint;
    SmallVarint(150);
    SmallVarint(300);
    SmallVarint(8);
    FirstRecord(VarintRec(1, 150), []);
    assert [VarintRec(1, 150)] + [] == [VarintRec(1, 150)];
  }

  /** The examples of the Protocol Buffers Encoding guide: a varint field, a string, an embedded message. */
  lemma GuideExamples()
    ensures EncVarint(150) == [0x96, 0x01] && EncVarint(300) == [0xAC, 0x02]
    ensures Written([VarintRec(1, 150)]) == [0x08, 0x96, 0x01]
    ensures Written([BytesRec(2, [0x74, 0x65, 0x73, 0x74, 0x69, 0x6E, 0x67])])
            == [0x12, 0x07, 0x74, 0x65, 0x73, 0x74, 0x69, 0x6E, 0x67]
    ensures Written([NestedRec(3, [VarintRec(1, 150)])]) == [0x1A, 0x03, 0x08, 0x96, 0x01]
  {
    hide Written, EncVarint;
    GuideVarint();
    var testing, nested := BytesRec(2, [0x74, 0x65, 0x73, 0x74, 0x69, 0x6E, 0x67]), NestedRec(3, [VarintRec(1, 150)]);
    TextBytes(2, testing.bytes, []);
    FirstRecord(nested, []);
    SmallVarint(0x1A);
    SmallVarint(3);
    assert [testing] + [] == [testing] && [nested] + [] == [nested];
  }

  /** A request to verify a hold of two seats, one with an empty id. */
  lemma VerifyHoldBytes()
    ensures Encode(VERIFY_HOLD_REQUEST, Message([Text([0x65]), Texts([[0x61], []]), Text([0x75])]))
            == [10, 1, 0x65, 18, 1, 0x61, 18, 0, 26, 1, 0x75]
  {
    hide Written, RecordsOf;
    var m := Message([Text([0x65]), Texts([[0x61], []]), Text([0x75])]);
    RecordsOfThree(VERIFY_HOLD_REQUEST, m);
    assert TextRecs(2, [[0x61], []]) == [BytesRec(2, [0x61]), BytesRec(2, [])];
    var last := [BytesRec(3, [0x75])];
    TextBytes(3, [0x75], []);
    assert last + [] == last;
    FirstRecord(BytesRec(3, [0x75]), []);
    assert Written(last) == [26, 1, 0x75];
    TextBytes(2, [], last);
    TextBytes(2, [0x61], [BytesRec(2, [])] + last);
    TextBytes(1, [0x65], [BytesRec(2, [0x61])] + ([BytesRec(2, [])] + last));
    assert RecordsOf(VERIFY_HOLD_REQUEST, m)
        == [BytesRec(1, [0x65])] + ([BytesRec(2, [0x61])] + ([BytesRec(2, [])] + last));
  }

  lemma RecordsOfThree(schema: seq<Kind>, m: Message)
    requires |schema| == |m.fields| == 3
    ensures RecordsOf(schema, m) == FieldRecs(schema[0], 1, m.fields[0]) + FieldRecs(schema[1], 2, m.fields[1])
                                    + FieldRecs(schema[2], 3, m.fields[2])
  {
    hide FieldRecs;
    assert RecordsUpTo(schema, m, 0) == [];
    assert RecordsUpTo(schema, m, 1) == FieldRecs(schema[0], 1, m.fields[0]);
    assert RecordsUpTo(schema, m, 2) == RecordsUpTo(schema, m, 1) + FieldRecs(schema[1], 2, m.fields[1]);
  }

  // ----- a message that is cut off

  /** `bs` starts at pos, and the buffer ends before it does. */
  predicate Cut(buf: seq<byte>, pos: nat, bs: seq<byte>) {
    pos <= |buf| < pos + |bs| && buf[pos..] == bs[..|buf| - pos]
  }

  lemma CutParts(buf: seq<byte>, pos: nat, a: seq<byte>, b: seq<byte>)
    requires Cut(buf, pos, a + b)
    ensures Cut(buf, pos, a) || (At(buf, pos, a) && Cut(buf, pos + |a|, b))
  {
    var k := |buf| - pos;
    if k < |a| {
      assert (a + b)[..k] == a[..k];
    } else {
      assert (a + b)[..k] == a + b[..k - |a|];
      assert buf[pos..pos + |a|] == buf[pos..][..|a|];
      assert buf[pos + |a|..] == buf[pos..][|a|..];
    }
  }

  lemma {:induction false} CutVarint(buf: seq<byte>, pos: nat, n: nat, k: nat)
    requires Cut(buf, pos, EncVarint(n))
    ensures Varint(buf, pos, k).Error? && SkipVarint(buf, pos).Error?
    decreases n
  {
    if pos < |buf| {
      var bs := EncVarint(n);
      assert buf[pos] == buf[pos..][0] == bs[0];
      assert n >= 128 && bs == [n % 128 + 128] + EncVarint(n / 128);
      CutParts(buf, pos, [n % 128 + 128], EncVarint(n / 128));
      CutVarint(buf, pos + 1, n / 128, if k > 0 then k - 1 else 0);
    }
  }

  lemma {:induction false} CutDelimited(buf: seq<byte>, pos: nat, bs: seq<byte>)
    requires |bs| < TWO_32 && Cut(buf, pos, Prefixed(bs))
    ensures Delimited(buf, pos).Error?
  {
    hide EncVarint;
    CutParts(buf, pos, EncVarint(|bs|), bs);
    if Cut(buf, pos, EncVarint(|bs|)) {
      CutVarint(buf, pos, |bs|, 10);
    } else {
      Uint32RoundTrip(buf, pos, |bs|);
    }
  }

  lemma {:induction false} CutForeign(schema: seq<Kind>, r: Rec, buf: seq<byte>, pos: nat, field: Option<nat>)
    requires RecOk(schema, r) && Cut(buf, pos, Payload(r)) && (field.Some? ==> field.value == r.field)
    ensures Skip(WireOfRec(r), buf, pos, field).Error?
    decreases r, 1
  {
    hide SkipGroup, Uint32, Written, EncVarint;
    match r
    case VarintRec(_, v) => CutVarint(buf, pos, v, 10);
    case Fixed64Rec(_, b) =>
    case Fixed32Rec(_, b) =>
    case BytesRec(_, b) => CutDelimited(buf, pos, b);
    case NestedRec(_, rs) => CutDelimited(buf, pos, Written(rs));
    case GroupRec(n, rs) => CutGroup(n, rs, buf, pos, field);
  }

  lemma {:induction false} CutGroup(n: nat, rs: seq<Rec>, buf: seq<byte>, pos: nat, field: Option<nat>)
    requires 1 <= n < 0x2000_0000 && RecsOk([], rs) && (field.Some? ==> field.value == n)
    requires Cut(buf, pos, Written(rs) + EncVarint(n * 8 + 4))
    ensures SkipGroup(buf, pos, field).Error?
    decreases rs, 0
  {
    hide Skip, Payload, EncVarint, RecOk, Varint;
    if rs == [] {
      assert Written(rs) + EncVarint(n * 8 + 4) == EncVarint(n * 8 + 4);
      CutVarint(buf, pos, n * 8 + 4, 10);
    } else {
      var r := rs[0];
      var tag, tail := EncVarint(r.field * 8 + WireOfRec(r)), Written(rs[1..]) + EncVarint(n * 8 + 4);
      FieldInRange([], r, rs);
      assert Written(rs) + EncVarint(n * 8 + 4) == (tag + Payload(r)) + tail;
      CutParts(buf, pos, tag + Payload(r), tail);
      if Cut(buf, pos, tag + Payload(r)) {
        CutGroupRecord([], r, buf, pos, field);
      } else {
        var p := TagIsRead(r, buf, pos);
        SkipsForeign([], r, buf, p, Some(r.field));
        GroupStep(r.field, WireOfRec(r), buf, pos, p, field);
        CutGroup(n, rs[1..], buf, pos + |tag + Payload(r)|, field);
      }
    }
  }

  /** A record is cut within its tag, or behind it. */
  lemma CutTag(r: Rec, buf: seq<byte>, pos: nat) returns (p: nat)
    requires 1 <= r.field < 0x2000_0000 && Cut(buf, pos, EncVarint(r.field * 8 + WireOfRec(r)) + Payload(r))
    ensures Uint32(buf, pos).Error? || (Uint32(buf, pos) == Ok(r.field * 8 + WireOfRec(r), p) && pos < p
                                        && Cut(buf, p, Payload(r)))
  {
    hide EncVarint, Payload;
    var tag := r.field * 8 + WireOfRec(r);
    TagDecodes(r.field, WireOfRec(r));
    CutParts(buf, pos, EncVarint(tag), Payload(r));
    p := pos + |EncVarint(tag)|;
    if Cut(buf, pos, EncVarint(tag)) {
      CutVarint(buf, pos, tag, 10);
    } else {
      Uint32RoundTrip(buf, pos, tag);
    }
  }

  lemma {:induction false} CutGroupRecord(schema: seq<Kind>, r: Rec, buf: seq<byte>, pos: nat, field: Option<nat>)
    requires RecOk(schema, r) && 1 <= r.field < 0x2000_0000
    requires Cut(buf, pos, EncVarint(r.field * 8 + WireOfRec(r)) + Payload(r))
    ensures SkipGroup(buf, pos, field).Error?
    decreases r, 2
  {
    hide Skip, Payload, EncVarint, RecOk, Uint32;
    var p := CutTag(r, buf, pos);
    if Uint32(buf, pos).Ok? {
      CutForeign(schema, r, buf, p, Some(r.field));
      TagDecodes(r.field, WireOfRec(r));
    }
  }

  lemma {:induction false} CutKnown(schema: seq<Kind>, r: Rec, buf: seq<byte>, pos: nat, old': Field)
    requires RecOk(schema, r) && Knows(schema, r) && Cut(buf, pos, Payload(r))
    ensures ReadField(schema[r.field - 1], buf, pos, old').Error?
    decreases r, 1
  {
    hide Nested, Written, Varint, EncVarint, Delimited;
    match schema[r.field - 1]
    case Sub(s) => CutNested(s, r.recs, buf, pos);
    case Subs(s) => CutNested(s, r.recs, buf, pos);
    case Flag => CutVarint(buf, pos, r.value, 10);
    case Num =>
    case _ => CutDelimited(buf, pos, r.bytes);
  }

  lemma {:induction false} CutNested(s: seq<Kind>, rs: seq<Rec>, buf: seq<byte>, pos: nat)
    requires RecsOk(s, rs) && |Written(rs)| < TWO_32 && Cut(buf, pos, Prefixed(Written(rs)))
    ensures Nested(s, buf, pos).Error?
    decreases rs, 2
  {
    hide Written, EncVarint, DecodeFrom;
    var n := |Written(rs)|;
    CutParts(buf, pos, EncVarint(n), Written(rs));
    if Cut(buf, pos, EncVarint(n)) {
      CutVarint(buf, pos, n, 10);
    } else {
      Uint32RoundTrip(buf, pos, n);
      CutLoop(s, rs, buf, pos + |EncVarint(n)|, pos + |EncVarint(n)| + n, Base(s));
    }
  }

  /** The loop of a message whose announced end lies behind the end of the buffer. */
  lemma {:induction false} CutLoop(schema: seq<Kind>, rs: seq<Rec>, buf: seq<byte>, pos: nat, end: nat, m: Message)
    requires Sized(schema, m) && RecsOk(schema, rs) && Cut(buf, pos, Written(rs)) && end > |buf|
    ensures DecodeFrom(schema, buf, pos, end, m).Error?
    decreases rs, 1
  {
    hide ApplyRec, Payload, RecordAt, DecodeFrom, EncVarint;
    var r := rs[0];
    var first := EncVarint(r.field * 8 + WireOfRec(r)) + Payload(r);
    assert RecOk(schema, r);
    assert Written(rs) == first + Written(rs[1..]);
    CutParts(buf, pos, first, Written(rs[1..]));
    if Cut(buf, pos, first) {
      CutRecord(schema, r, buf, pos, end, m);
    } else {
      var p, q := RecordIsRead(schema, r, buf, pos, m);
      LoopStep(schema, r, buf, pos, end, p, q, m);
      CutLoop(schema, rs[1..], buf, q, end, ApplyRec(schema, m, r));
    }
  }

  lemma {:induction false} CutRecord(schema: seq<Kind>, r: Rec, buf: seq<byte>, pos: nat, end: nat, m: Message)
    requires Sized(schema, m) && RecOk(schema, r) && pos < end
    requires Cut(buf, pos, EncVarint(r.field * 8 + WireOfRec(r)) + Payload(r))
    ensures DecodeFrom(schema, buf, pos, end, m).Error?
    decreases r, 2
  {
    hide Payload, EncVarint, Uint32, ReadField, Skip, RecOk;
    assert 1 <= r.field < 0x2000_0000 by { FieldInRange(schema, r, [r]); }
    var p := CutTag(r, buf, pos);
    if Uint32(buf, pos).Ok? {
      TagDecodes(r.field, WireOfRec(r));
      if Knows(schema, r) {
        CutKnown(schema, r, buf, p, m.fields[r.field - 1]);
      } else {
        CutForeign(schema, r, buf, p, None);
      }
    }
  }

  /** The loop at the top, where the end is that of the buffer: it comes through at the end of a record. */
  lemma {:induction false} CutAnywhere(schema: seq<Kind>, rs: seq<Rec>, buf: seq<byte>, pos: nat, m: Message)
    returns (j: nat)
    requires Sized(schema, m) && RecsOk(schema, rs) && pos <= |buf| <= pos + |Written(rs)|
    requires buf[pos..] == Written(rs)[..|buf| - pos]
    ensures j <= |rs| && (|buf| - pos == |Written(rs[..j])| || DecodeFrom(schema, buf, pos, |buf|, m).Error?)
    decreases |rs|
  {
    hide ApplyRec, Payload, RecordAt, DecodeFrom, EncVarint;
    j := 0;
    if pos < |buf| {
      var r := rs[0];
      var first := EncVarint(r.field * 8 + WireOfRec(r)) + Payload(r);
      assert RecOk(schema, r);
      assert Written(rs) == first + Written(rs[1..]);
      PrefixParts(buf, pos, first, Written(rs[1..]));
      if Cut(buf, pos, first) {
        CutRecord(schema, r, buf, pos, |buf|, m);
      } else {
        var p, q := RecordIsRead(schema, r, buf, pos, m);
        LoopStep(schema, r, buf, pos, |buf|, p, q, m);
        j := CutAnywhere(schema, rs[1..], buf, q, ApplyRec(schema, m, r));
        assert rs[..j + 1][1..] == rs[1..][..j];
        j := j + 1;
      }
    }
  }

  lemma PrefixParts(buf: seq<byte>, pos: nat, a: seq<byte>, b: seq<byte>)
    requires pos <= |buf| <= pos + |a + b| && buf[pos..] == (a + b)[..|buf| - pos]
    ensures Cut(buf, pos, a)
            || (At(buf, pos, a) && |buf| <= pos + |a| + |b| && buf[pos + |a|..] == b[..|buf| - pos - |a|])
  {
    var k := |buf| - pos;
    if k < |a| {
      assert (a + b)[..k] == a[..k];
    } else {
      assert (a + b)[..k] == a + b[..k - |a|];
      assert buf[pos..pos + |a|] == buf[pos..][..|a|];
      assert buf[pos + |a|..] == buf[pos..][|a|..];
    }
  }

  /** The first k bytes of an encoding, with foreign records or without, are decoded if and only if they end
      where a record of the outermost message ends; then they are decoded as the records up to there. */
  lemma {:induction false} TruncatedDecodesIff(schema: seq<Kind>, rs: seq<Rec>, k: nat)
    requires RecsOk(schema, rs) && k <= |Written(rs)|
    ensures Decode(schema, Written(rs)[..k]).Some? <==> exists j :: 0 <= j <= |rs| && k == |Written(rs[..j])|
    ensures forall j :: 0 <= j <= |rs| && k == |Written(rs[..j])| ==>
              Decode(schema, Written(rs)[..k]) == Some(Fold(schema, Base(schema), rs[..j]))
  {
    hide DecodeFrom, Fold, RecOk;
    var buf := Written(rs)[..k];
    assert buf[0..] == buf;
    var i := CutAnywhere(schema, rs, buf, 0, Base(schema));
    forall j | 0 <= j <= |rs| && k == |Written(rs[..j])|
      ensures Decode(schema, buf) == Some(Fold(schema, Base(schema), rs[..j]))
    {
      WrittenAppend(rs[..j], rs[j..]);
      assert rs[..j] + rs[j..] == rs;
      assert buf == Written(rs[..j]);
      DecodeWritten(schema, rs[..j]);
    }
  }

  // ----- tags that end a message, or that nothing can skip

  /** The loop goes on behind the records with them folded in. */
  lemma {:induction false} FoldsThrough(schema: seq<Kind>, rs: seq<Rec>, buf: seq<byte>, pos: nat, end: nat, m: Message)
    requires Sized(schema, m) && RecsOk(schema, rs) && At(buf, pos, Written(rs)) && end >= pos + |Written(rs)|
    ensures DecodeFrom(schema, buf, pos, end, m)
            == DecodeFrom(schema, buf, pos + |Written(rs)|, end, Fold(schema, m, rs))
    decreases |rs|
  {
    hide ApplyRec, Payload, RecordAt, DecodeFrom, Fold;
    FoldNext(schema, rs, buf, end, m);
    if rs != [] {
      var r := rs[0];
      var first := EncVarint(r.field * 8 + WireOfRec(r)) + Payload(r);
      assert RecOk(schema, r);
      assert Written(rs) == first + Written(rs[1..]);
      AtParts(buf, pos, first, Written(rs[1..]));
      var p, q := RecordIsRead(schema, r, buf, pos, m);
      LoopStep(schema, r, buf, pos, end, p, q, m);
      FoldsThrough(schema, rs[1..], buf, q, end, ApplyRec(schema, m, r));
    }
  }

  /** Behind the records of a message stands a tag that starts none: zero or the end of a group ends the message,
      wire types six and seven throw. */
  lemma {:induction false} StrayTag(schema: seq<Kind>, rs: seq<Rec>, tag: nat, rest: seq<byte>)
    requires RecsOk(schema, rs) && tag < TWO_32
    ensures tag == 0 || tag % 8 == 4 ==>
              Decode(schema, Written(rs) + EncVarint(tag) + rest) == Some(Fold(schema, Base(schema), rs))
    ensures tag % 8 == 6 || tag % 8 == 7 ==> Decode(schema, Written(rs) + EncVarint(tag) + rest) == None
  {
    hide RecOk, Fold, EncVarint;
    var buf, p := Written(rs) + EncVarint(tag) + rest, |Written(rs)|;
    assert buf[0..0 + p] == Written(rs);
    assert buf[p..p + |EncVarint(tag)|] == EncVarint(tag);
    FoldsThrough(schema, rs, buf, 0, |buf|, Base(schema));
    Uint32RoundTrip(buf, p, tag);
    AtStrayTag(schema, tag, buf, p, p + |EncVarint(tag)|, |buf|, Fold(schema, Base(schema), rs));
  }

  lemma AtStrayTag(schema: seq<Kind>, tag: nat, buf: seq<byte>, pos: nat, p: nat, end: nat, m: Message)
    requires Sized(schema, m) && pos < end && Uint32(buf, pos) == Ok(tag, p)
    ensures tag == 0 || tag % 8 == 4 ==> DecodeFrom(schema, buf, pos, end, m) == Ok(m, p)
    ensures tag % 8 == 6 || tag % 8 == 7 ==> DecodeFrom(schema, buf, pos, end, m).Error?
  {
    hide Uint32, ReadField;
  }
}
