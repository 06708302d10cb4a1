/** The generated encoders and decoders: a writer that is appended to, a reader with a position, and the
    loops over them, for any message type of the two services. */
module Codec {
  import opened Basics
  import opened Wire
  import opened WireLaws

  class BinaryWriter {
    var buf: seq<byte>
    var stack: seq<seq<byte>>

    constructor ()
      ensures buf == [] && stack == []
    {
      buf, stack := [], [];
    }

    method Uint32(n: nat)
      modifies this`buf
      ensures buf == old(buf) + EncVarint(n)
    {
      var rest := n;
      while rest >= 128
        invariant buf + EncVarint(rest) == old(buf) + EncVarint(n)
        decreases rest
      {
        assert EncVarint(rest) == [rest % 128 + 128] + EncVarint(rest / 128);
        buf := buf + [rest % 128 + 128];
        rest := rest / 128;
      }
      buf := buf + [rest];
    }

    method Raw(bytes: seq<byte>)
      modifies this`buf
      ensures buf == old(buf) + bytes
    {
      buf := buf + bytes;
    }

    method Bytes(bytes: seq<byte>)
      modifies this`buf
      ensures buf == old(buf) + Prefixed(bytes)
    {
      Uint32(|bytes|);
      Raw(bytes);
    }

    method Fork()
      modifies this
      ensures buf == [] && stack == old(stack) + [old(buf)]
    {
      stack := stack + [buf];
      buf := [];
    }

    /** What was written since the fork, behind its length. */
    method Join()
      requires stack != []
      modifies this
      ensures stack == old(stack)[..|old(stack)| - 1]
      ensures buf == old(stack)[|old(stack)| - 1] + Prefixed(old(buf))
    {
      var chunk := buf;
      buf := stack[|stack| - 1];
      stack := stack[..|stack| - 1];
      Bytes(chunk);
    }
  }

  function Tag(k: Kind, n: nat): nat {
    n * 8 + WireType(k)
  }

  lemma WrittenOne(r: Rec)
    ensures Written([r]) == EncVarint(r.field * 8 + WireOfRec(r)) + Payload(r)
  {
    assert [r][1..] == [];
  }

  lemma WrittenEmpty()
    ensures Written([]) == []
  {
  }

  lemma OneByte()
    ensures EncVarint(1) == [1]
  {
  }

  lemma WrittenTexts(n: nat, all: seq<seq<byte>>, i: nat)
    requires i < |all|
    ensures Written(TextRecs(n, all[..i + 1]))
            == Written(TextRecs(n, all[..i])) + (EncVarint(Tag(Strs, n)) + Prefixed(all[i]))
  {
    assert TextRecs(n, all[..i + 1]) == TextRecs(n, all[..i]) + [BytesRec(n, all[i])];
    WrittenAppend(TextRecs(n, all[..i]), [BytesRec(n, all[i])]);
    WrittenOne(BytesRec(n, all[i]));
  }

  lemma WrittenNested(s: seq<Kind>, n: nat, ms: seq<Message>, i: nat)
    requires i < |ms|
    ensures Written(NestedRecs(s, n, ms[..i + 1]))
            == Written(NestedRecs(s, n, ms[..i])) + (EncVarint(Tag(Subs(s), n)) + Prefixed(Encode(s, ms[i])))
  {
    assert ms[..i + 1][..i] == ms[..i];
    WrittenAppend(NestedRecs(s, n, ms[..i]), [NestedRec(n, RecordsOf(s, ms[i]))]);
    WrittenOne(NestedRec(n, RecordsOf(s, ms[i])));
  }

  /** A message field: tag, fork, encode, join. */
  method EncodeNested(k: Kind, s: seq<Kind>, n: nat, m: Message, writer: BinaryWriter)
    requires k == Sub(s) || k == Subs(s)
    requires Encodable(s, m)
    modifies writer
    ensures writer.buf == old(writer.buf) + (EncVarint(Tag(k, n)) + Prefixed(Encode(s, m)))
    ensures writer.stack == old(writer.stack)
    decreases m, 1
  {
    writer.Uint32(Tag(k, n));
    writer.Fork();
    EncodeMessage(s, m, writer);
    writer.Join();
  }

  /** The `if` or `for` of one field in `encode`. */
  method EncodeField(k: Kind, n: nat, f: Field, writer: BinaryWriter)
    requires FieldEncodable(k, f)
    modifies writer
    ensures writer.buf == old(writer.buf) + Written(FieldRecs(k, n, f)) && writer.stack == old(writer.stack)
    decreases f, 2
  {
    hide Written, RecordsOf, TextRecs, NestedRecs, EncVarint;
    WrittenEmpty();
    match k
    case Str =>
      if f.bytes != [] {
        WrittenOne(BytesRec(n, f.bytes));
        EncodeText(Tag(k, n), f.bytes, writer);
      }
    case Strs =>
      EncodeTexts(n, f.all, writer);
    case Flag =>
      if f.on {
        WrittenOne(VarintRec(n, 1));
        writer.Uint32(Tag(k, n));
        assert EncVarint(1) == [1] by { OneByte(); }
        writer.Raw([1]);
      }
    case Num =>
      if !IsZero(f.bits) {
        WrittenOne(Fixed64Rec(n, f.bits));
        writer.Uint32(Tag(k, n));
        writer.Raw(f.bits);
      }
    case Sub(s) =>
      if f.msg.Some? {
        WrittenOne(NestedRec(n, RecordsOf(s, f.msg.value)));
        EncodeNested(k, s, n, f.msg.value, writer);
      }
    case Subs(s) =>
      EncodeAll(s, n, f.msgs, writer);
  }

  method EncodeText(tag: nat, bytes: seq<byte>, writer: BinaryWriter)
    modifies writer
    ensures writer.buf == old(writer.buf) + (EncVarint(tag) + Prefixed(bytes)) && writer.stack == old(writer.stack)
  {
    writer.Uint32(tag);
    writer.Bytes(bytes);
  }

  lemma Assoc(a: seq<byte>, b: seq<byte>, c: seq<byte>)
    ensures (a + b) + c == a + (b + c)
  {
  }

  method EncodeTexts(n: nat, all: seq<seq<byte>>, writer: BinaryWriter)
    modifies writer
    ensures writer.buf == old(writer.buf) + Written(TextRecs(n, all)) && writer.stack == old(writer.stack)
  {
    for i := 0 to |all|
      invariant writer.buf == old(writer.buf) + Written(TextRecs(n, all[..i])) && writer.stack == old(writer.stack)
    {
      WrittenTexts(n, all, i);
      Assoc(old(writer.buf), Written(TextRecs(n, all[..i])), EncVarint(Tag(Strs, n)) + Prefixed(all[i]));
      EncodeText(Tag(Strs, n), all[i], writer);
    }
    assert all[..|all|] == all;
  }

  method EncodeAll(s: seq<Kind>, n: nat, ms: seq<Message>, writer: BinaryWriter)
    requires forall i :: 0 <= i < |ms| ==> Encodable(s, ms[i])
    modifies writer
    ensures writer.buf == old(writer.buf) + Written(NestedRecs(s, n, ms)) && writer.stack == old(writer.stack)
    decreases ms, 2
  {
    for i := 0 to |ms|
      invariant writer.buf == old(writer.buf) + Written(NestedRecs(s, n, ms[..i])) && writer.stack == old(writer.stack)
    {
      WrittenNested(s, n, ms, i);
      Assoc(old(writer.buf), Written(NestedRecs(s, n, ms[..i])),
          EncVarint(Tag(Subs(s), n)) + Prefixed(Encode(s, ms[i])));
      EncodeNested(Subs(s), s, n, ms[i], writer);
    }
    assert ms[..|ms|] == ms;
  }

  lemma WrittenNone(schema: seq<Kind>, m: Message)
    ensures Written(RecordsUpTo(schema, m, 0)) == []
  {
  }

  lemma WrittenNext(schema: seq<Kind>, m: Message, i: nat)
    requires i < |schema| == |m.fields|
    ensures Written(RecordsUpTo(schema, m, i + 1))
            == Written(RecordsUpTo(schema, m, i)) + Written(FieldRecs(schema[i], i + 1, m.fields[i]))
  {
    WrittenAppend(RecordsUpTo(schema, m, i), FieldRecs(schema[i], i + 1, m.fields[i]));
  }

  method EncodeMessage(schema: seq<Kind>, m: Message, writer: BinaryWriter)
    requires Encodable(schema, m)
    modifies writer
    ensures writer.buf == old(writer.buf) + Encode(schema, m) && writer.stack == old(writer.stack)
    decreases m, 0
  {
    hide FieldRecs, Written, RecordsUpTo;
    WrittenNone(schema, m);
    for i := 0 to |schema|
      invariant writer.buf == old(writer.buf) + Written(RecordsUpTo(schema, m, i)) && writer.stack == old(writer.stack)
    {
      WrittenNext(schema, m, i);
      Assoc(old(writer.buf), Written(RecordsUpTo(schema, m, i)), Written(FieldRecs(schema[i], i + 1, m.fields[i])));
      EncodeField(schema[i], i + 1, m.fields[i], writer);
    }
  }

  // ----- reading

  lemma VarintStep(acc: int, mult: int, b: int, v: int)
    ensures acc + mult * (b + 128 * v) == (acc + mult * b) + (mult * 128) * v
  {
    assert mult * (128 * v) == (mult * 128) * v;
    assert mult * (b + 128 * v) == mult * b + mult * (128 * v);
  }

  class BinaryReader {
    const buf: seq<byte>
    var pos: nat

    constructor (buf: seq<byte>)
      ensures this.buf == buf && pos == 0
    {
      this.buf, pos := buf, 0;
    }

    /** Where the reader stands, given what a specification function says of a read at `from`: the value
        and the position behind it, or an exception. */
    ghost predicate Did<T(!new)>(o: Outcome<T>, r: Option<T>)
      reads this
    {
      match o
      case Error => r.None?
      case Ok(v, p) => r == Some(v) && pos == p
    }

    /** Seven bits a byte, low bits first, up to ten bytes. */
    method ReadVarint() returns (r: Option<nat>)
      modifies this
      ensures Did(Varint(buf, old(pos), 10), r)
    {
      var left, acc, mult := 10, 0, 1;
      while left > 0 && pos < |buf|
        invariant match Varint(buf, pos, left)
                  case Error => Varint(buf, old(pos), 10).Error?
                  case Ok(v, p) => Varint(buf, old(pos), 10) == Ok(acc + mult * v, p)
        decreases left
      {
        var b := buf[pos];
        pos := pos + 1;
        if b < 128 {
          return Some(acc + mult * b);
        }
        if Varint(buf, pos, left - 1).Ok? {
          VarintStep(acc, mult, b - 128, Varint(buf, pos, left - 1).value);
        }
        acc, mult, left := acc + mult * (b - 128), mult * 128, left - 1;
      }
      return None;
    }

    method ReadUint32() returns (r: Option<nat>)
      modifies this
      ensures Did(Uint32(buf, old(pos)), r)
    {
      r := ReadVarint();
      if r.Some? {
        r := Some(r.value % TWO_32);
      }
    }

    method ReadRaw(n: nat) returns (r: Option<seq<byte>>)
      modifies this
      ensures Did(Take(buf, old(pos), n), r)
    {
      var start := pos;
      pos := pos + n;
      if pos > |buf| {
        return None;
      }
      return Some(buf[start..pos]);
    }

    method ReadBytes() returns (r: Option<seq<byte>>)
      modifies this
      ensures Did(Delimited(buf, old(pos)), r)
    {
      var n := ReadUint32();
      if n.None? {
        return None;
      }
      r := ReadRaw(n.value);
    }

    method DoSkip(wire: nat, field: Option<nat>) returns (r: Option<()>)
      requires pos <= |buf|
      modifies this
      ensures Did(Skip(wire, buf, old(pos), field), r)
      decreases |buf| - pos, 1
    {
      if wire == 0 {
        while pos < |buf| && buf[pos] >= 128
          invariant SkipVarint(buf, pos) == SkipVarint(buf, old(pos))
          decreases |buf| - pos
        {
          pos := pos + 1;
        }
        if pos >= |buf| {
          return None;
        }
        pos := pos + 1;
        return Some(());
      }
      if wire == 3 {
        r := DoSkipGroup(field);
        return;
      }
      var skipped;
      if wire == 1 {
        skipped := ReadRaw(8);
      } else if wire == 5 {
        skipped := ReadRaw(4);
      } else if wire == 2 {
        skipped := ReadBytes();
      } else {
        return None;
      }
      return if skipped.Some? then Some(()) else None;
    }

    /** The loop of `skip` over a group. */
    method DoSkipGroup(field: Option<nat>) returns (r: Option<()>)
      requires pos <= |buf|
      modifies this
      ensures Did(SkipGroup(buf, old(pos), field), r)
      decreases |buf| - pos, 0
    {
      while true
        invariant old(pos) <= pos <= |buf|
        invariant SkipGroup(buf, pos, field) == SkipGroup(buf, old(pos), field)
        decreases |buf| - pos
      {
        var tag := ReadUint32();
        if tag.None? {
          return None;
        }
        var n, wire := tag.value / 8, tag.value % 8;
        if n == 0 || wire > 5 {
          return None;
        }
        if wire == 4 {
          return if field.Some? && field.value != n then None else Some(());
        }
        var skipped := DoSkip(wire, Some(n));
        if skipped.None? {
          return None;
        }
      }
    }
  }

  /** The end of a message that starts at `pos`: of the given length, or the end of the buffer. */
  function End(buf: seq<byte>, pos: nat, length: Option<nat>): nat {
    if length.Some? then pos + length.value else |buf|
  }

  /** One `case` of the switch in `decode`. */
  method DecodeField(reader: BinaryReader, k: Kind, old': Field) returns (r: Option<Field>)
    requires reader.pos <= |reader.buf|
    modifies reader
    ensures reader.Did(ReadField(k, reader.buf, old(reader.pos), old'), r)
    decreases |reader.buf| - reader.pos, 1
  {
    match k
    case Str =>
      var s := reader.ReadBytes();
      return if s.Some? then Some(Text(s.value)) else None;
    case Strs =>
      var s := reader.ReadBytes();
      return if s.Some? then Some(Texts(TextsOf(old') + [s.value])) else None;
    case Flag =>
      var v := reader.ReadVarint();
      return if v.Some? then Some(Bit(v.value % TWO_64 != 0)) else None;
    case Num =>
      var bits := reader.ReadRaw(8);
      return if bits.Some? then Some(Real(bits.value)) else None;
    case Sub(schema) =>
      var m := DecodeNested(reader, schema);
      return if m.Some? then Some(One(m)) else None;
    case Subs(schema) =>
      var m := DecodeNested(reader, schema);
      return if m.Some? then Some(Many(MessagesOf(old') + [m.value])) else None;
  }

  /** `decode(reader, reader.uint32())`. */
  method DecodeNested(reader: BinaryReader, schema: seq<Kind>) returns (m: Option<Message>)
    requires reader.pos <= |reader.buf|
    modifies reader
    ensures reader.Did(Nested(schema, reader.buf, old(reader.pos)), m)
    decreases |reader.buf| - reader.pos, 0
  {
    var n := reader.ReadUint32();
    if n.None? {
      return None;
    }
    assert End(reader.buf, reader.pos, n) == reader.pos + n.value;
    m := DecodeMessage(reader, schema, n);
  }

  /** `decode`: None is an exception of the reader. */
  method DecodeMessage(reader: BinaryReader, schema: seq<Kind>, length: Option<nat>) returns (r: Option<Message>)
    requires reader.pos <= |reader.buf|
    modifies reader
    ensures var end := End(reader.buf, old(reader.pos), length);
            reader.Did(DecodeFrom(schema, reader.buf, old(reader.pos), end, Base(schema)), r)
    decreases |reader.buf| - reader.pos, 2
  {
    hide ReadField, Skip, Uint32;
    var end := End(reader.buf, reader.pos, length);
    var message := Base(schema);
    ghost var start := reader.pos;
    ghost var whole := DecodeFrom(schema, reader.buf, start, end, message);
    while reader.pos < end
      invariant start <= reader.pos <= |reader.buf| && Sized(schema, message)
      invariant whole == DecodeFrom(schema, reader.buf, reader.pos, end, message)
      decreases |reader.buf| - reader.pos
    {
      var tag := reader.ReadUint32();
      if tag.None? {
        return None;
      }
      var n, wire := tag.value / 8, tag.value % 8;
      if 1 <= n <= |schema| && wire == WireType(schema[n - 1]) {
        var f := DecodeField(reader, schema[n - 1], message.fields[n - 1]);
        if f.None? {
          return None;
        }
        message := Message(message.fields[n - 1 := f.value]);
      } else {
        if wire == 4 || tag.value == 0 {
          break;
        }
        var skipped := reader.DoSkip(wire, None);
        if skipped.None? {
          return None;
        }
      }
    }
    return Some(message);
  }
}
