/** The wire format of the generated protobuf code: records of tag and payload, and what a decoder makes
    of a sequence of records.  Strings are opaque byte sequences and doubles eight opaque bytes. */
module Wire {
  import opened Basics

  type byte = x: int | 0 <= x < 256

  const TWO_32 := 0x1_0000_0000
  const TWO_64 := 0x1_0000_0000_0000_0000

  // ----- message types and messages

  /** The kinds of field that occur: strings, repeated strings, bools, doubles, optional and repeated
      messages.  Field number n of a type is at position n - 1. */
  datatype Kind = Str | Strs | Flag | Num | Sub(schema: seq<Kind>) | Subs(schema: seq<Kind>)

  datatype Message = Message(fields: seq<Field>)

  datatype Field =
    | Text(bytes: seq<byte>)
    | Texts(all: seq<seq<byte>>)
    | Bit(on: bool)
    | Real(bits: seq<byte>)
    | One(msg: Option<Message>)
    | Many(msgs: seq<Message>)

  const ZERO: seq<byte> := [0, 0, 0, 0, 0, 0, 0, 0]
  const NEGATIVE_ZERO: seq<byte> := [0, 0, 0, 0, 0, 0, 0, 0x80]

  /** A field before anything is read into it. */
  function Default(k: Kind): Field {
    match k
    case Str => Text([])
    case Strs => Texts([])
    case Flag => Bit(false)
    case Num => Real(ZERO)
    case Sub(_) => One(None)
    case Subs(_) => Many([])
  }

  function Base(schema: seq<Kind>): (m: Message)
    ensures Sized(schema, m)
  {
    Message(seq(|schema|, i requires 0 <= i < |schema| => Default(schema[i])))
  }

  /** The field holds a value of its kind, not looking into messages. */
  predicate FieldTyped(k: Kind, f: Field) {
    match k
    case Str => f.Text?
    case Strs => f.Texts?
    case Flag => f.Bit?
    case Num => f.Real?
    case Sub(_) => f.One?
    case Subs(_) => f.Many?
  }

  /** One field per kind of the type. */
  predicate Sized(schema: seq<Kind>, m: Message) {
    |m.fields| == |schema|
  }

  /** The members that a repeated field has so far. */
  function TextsOf(f: Field): seq<seq<byte>> {
    if f.Texts? then f.all else []
  }

  function MessagesOf(f: Field): seq<Message> {
    if f.Many? then f.msgs else []
  }

  // ----- varints

  function EncVarint(n: nat): (r: seq<byte>)
    ensures |r| >= 1
  {
    if n < 128 then [n] else [n % 128 + 128] + EncVarint(n / 128)
  }

  /** What a read gives: a value and the position after it, or an exception. */
  datatype Outcome<+T> = Ok(value: T, pos: nat) | Error

  function Varint(buf: seq<byte>, pos: nat, left: nat): (r: Outcome<nat>)
    ensures r.Ok? ==> pos < r.pos <= |buf|
    decreases |buf| - pos
  {
    if left == 0 || pos >= |buf| then Error
    else if buf[pos] < 128 then Ok(buf[pos], pos + 1)
    else
      match Varint(buf, pos + 1, left - 1)
      case Error => Error
      case Ok(v, p) => Ok(buf[pos] - 128 + 128 * v, p)
  }

  /** A varint of at most ten bytes, of which the low 32 bits count. */
  function Uint32(buf: seq<byte>, pos: nat): (r: Outcome<nat>)
    ensures r.Ok? ==> pos < r.pos <= |buf|
  {
    match Varint(buf, pos, 10)
    case Error => Error
    case Ok(v, p) => Ok(v % TWO_32, p)
  }

  function Take(buf: seq<byte>, pos: nat, n: nat): (r: Outcome<seq<byte>>)
    ensures r.Ok? ==> r.pos == pos + n <= |buf|
  {
    if pos + n <= |buf| then Ok(buf[pos..pos + n], pos + n) else Error
  }

  function Delimited(buf: seq<byte>, pos: nat): (r: Outcome<seq<byte>>)
    ensures r.Ok? ==> pos < r.pos <= |buf|
  {
    match Uint32(buf, pos)
    case Error => Error
    case Ok(n, p) => Take(buf, p, n)
  }

  function SkipVarint(buf: seq<byte>, pos: nat): (r: Outcome<()>)
    ensures r.Ok? ==> pos < r.pos <= |buf|
    decreases |buf| - pos
  {
    if pos >= |buf| then Error else if buf[pos] < 128 then Ok((), pos + 1) else SkipVarint(buf, pos + 1)
  }

  /** `skip`: the payload behind a tag of this wire type.  A group reaches up to its end tag, which must
      carry the number `field` where the caller passes one. */
  function Skip(wire: nat, buf: seq<byte>, pos: nat, field: Option<nat>): (r: Outcome<()>)
    ensures r.Ok? ==> pos < r.pos <= |buf|
    decreases |buf| - pos, 1
  {
    if wire == 0 then SkipVarint(buf, pos)
    else if wire == 1 || wire == 5 then
      match Take(buf, pos, if wire == 1 then 8 else 4) case Error => Error case Ok(_, p) => Ok((), p)
    else if wire == 2 then
      match Delimited(buf, pos) case Error => Error case Ok(_, p) => Ok((), p)
    else if wire == 3 then SkipGroup(buf, pos, field)
    else Error
  }

  /** The records of a group, up to its end tag. */
  function SkipGroup(buf: seq<byte>, pos: nat, field: Option<nat>): (r: Outcome<()>)
    ensures r.Ok? ==> pos < r.pos <= |buf|
    decreases |buf| - pos, 0
  {
    match Uint32(buf, pos)
    case Error => Error
    case Ok(tag, p) =>
      var n, wire := tag / 8, tag % 8;
      if n == 0 || wire > 5 then Error
      else if wire == 4 then if field.Some? && field.value != n then Error else Ok((), p)
      else
        match Skip(wire, buf, p, Some(n))
        case Error => Error
        case Ok(_, q) => SkipGroup(buf, q, field)
  }

  function WireType(k: Kind): nat {
    match k
    case Flag => 0
    case Num => 1
    case _ => 2
  }

  // ----- decoding

  /** One `case` of the switch: read the payload of a field of kind k, whose value so far is `old`. */
  function ReadField(k: Kind, buf: seq<byte>, pos: nat, old': Field): (r: Outcome<Field>)
    requires pos <= |buf|
    ensures r.Ok? ==> pos < r.pos <= |buf|
    decreases |buf| - pos, 1
  {
    match k
    case Str => (match Delimited(buf, pos) case Error => Error case Ok(s, p) => Ok(Text(s), p))
    case Strs => (match Delimited(buf, pos) case Error => Error case Ok(s, p) => Ok(Texts(TextsOf(old') + [s]), p))
    case Flag => (match Varint(buf, pos, 10) case Error => Error case Ok(v, p) => Ok(Bit(v % TWO_64 != 0), p))
    case Num => (match Take(buf, pos, 8) case Error => Error case Ok(bits, p) => Ok(Real(bits), p))
    case Sub(schema) => (match Nested(schema, buf, pos) case Error => Error case Ok(m, p) => Ok(One(Some(m)), p))
    case Subs(schema) =>
      (match Nested(schema, buf, pos) case Error => Error case Ok(m, p) => Ok(Many(MessagesOf(old') + [m]), p))
  }

  /** An embedded message: its length, and a decode on the same reader. */
  function Nested(schema: seq<Kind>, buf: seq<byte>, pos: nat): (r: Outcome<Message>)
    requires pos <= |buf|
    ensures r.Ok? ==> pos < r.pos <= |buf|
    decreases |buf| - pos, 0
  {
    match Uint32(buf, pos)
    case Error => Error
    case Ok(n, p) => DecodeFrom(schema, buf, p, p + n, Base(schema))
  }

  /** The loop of `decode`: read records into m until the position has reached `end`, or a tag that is
      zero or ends a group. */
  function DecodeFrom(schema: seq<Kind>, buf: seq<byte>, pos: nat, end: nat, m: Message): (r: Outcome<Message>)
    requires Sized(schema, m) && pos <= |buf|
    ensures r.Ok? ==> pos <= r.pos <= |buf| && Sized(schema, r.value)
    decreases |buf| - pos, 2
  {
    if pos >= end then Ok(m, pos)
    else
      match Uint32(buf, pos)
      case Error => Error
      case Ok(tag, p) =>
        var n, wire := tag / 8, tag % 8;
        if 1 <= n <= |schema| && wire == WireType(schema[n - 1]) then
          match ReadField(schema[n - 1], buf, p, m.fields[n - 1])
          case Error => Error
          case Ok(f, q) => DecodeFrom(schema, buf, q, end, Message(m.fields[n - 1 := f]))
        else if wire == 4 || tag == 0 then Ok(m, p)
        else
          match Skip(wire, buf, p, None)
          case Error => Error
          case Ok(_, q) => DecodeFrom(schema, buf, q, end, m)
  }

  function Decode(schema: seq<Kind>, buf: seq<byte>): Option<Message> {
    match DecodeFrom(schema, buf, 0, |buf|, Base(schema))
    case Error => None
    case Ok(m, _) => Some(m)
  }

  // ----- records

  datatype Rec =
    | VarintRec(field: nat, value: nat)
    | Fixed64Rec(field: nat, bytes: seq<byte>)
    | Fixed32Rec(field: nat, bytes: seq<byte>)
    | BytesRec(field: nat, bytes: seq<byte>)
    | NestedRec(field: nat, recs: seq<Rec>)
    | GroupRec(field: nat, recs: seq<Rec>)

  function WireOfRec(r: Rec): nat {
    match r
    case VarintRec(_, _) => 0
    case Fixed64Rec(_, _) => 1
    case Fixed32Rec(_, _) => 5
    case GroupRec(_, _) => 3
    case _ => 2
  }

  function Prefixed(bytes: seq<byte>): seq<byte> {
    EncVarint(|bytes|) + bytes
  }

  function Payload(r: Rec): seq<byte> {
    match r
    case VarintRec(_, v) => EncVarint(v)
    case Fixed64Rec(_, b) => b
    case Fixed32Rec(_, b) => b
    case BytesRec(_, b) => Prefixed(b)
    case NestedRec(_, rs) => Prefixed(Written(rs))
    case GroupRec(n, rs) => Written(rs) + EncVarint(n * 8 + 4)
  }

  /** A sequence of records as it is sent. */
  function Written(rs: seq<Rec>): seq<byte> {
    if rs == [] then [] else EncVarint(rs[0].field * 8 + WireOfRec(rs[0])) + Payload(rs[0]) + Written(rs[1..])
  }

  function KindAt(schema: seq<Kind>, n: nat): Option<Kind> {
    if 1 <= n <= |schema| then Some(schema[n - 1]) else None
  }

  function SubSchema(schema: seq<Kind>, n: nat): Option<seq<Kind>> {
    match KindAt(schema, n)
    case Some(Sub(s)) => Some(s)
    case Some(Subs(s)) => Some(s)
    case _ => None
  }

  /** Field numbers, values and lengths are in range, and the payload of a message field is itself a
      sequence of records of its type.  A group, which no field of the types is, holds any records. */
  predicate RecOk(schema: seq<Kind>, r: Rec)
    decreases r
  {
    && 1 <= r.field < 0x2000_0000
    && match r
       case VarintRec(_, v) => v < TWO_64
       case Fixed64Rec(_, b) => |b| == 8
       case Fixed32Rec(_, b) => |b| == 4
       case BytesRec(_, b) => |b| < TWO_32 && SubSchema(schema, r.field).None?
       case GroupRec(_, rs) => RecsOk([], rs)
       case NestedRec(_, rs) =>
         |Written(rs)| < TWO_32 && SubSchema(schema, r.field).Some? && RecsOk(SubSchema(schema, r.field).value, rs)
  }

  predicate RecsOk(schema: seq<Kind>, rs: seq<Rec>)
    decreases rs
  {
    forall i :: 0 <= i < |rs| ==> RecOk(schema, rs[i])
  }

  /** The record's field number and wire type are those of a field of the type. */
  predicate Knows(schema: seq<Kind>, r: Rec) {
    1 <= r.field <= |schema| && WireOfRec(r) == WireType(schema[r.field - 1])
  }

  /** What a known record does to its field: a singular field is overwritten, a repeated one grows. */
  function Value(k: Kind, r: Rec, old': Field): (f: Field)
    requires WireOfRec(r) == WireType(k)
    decreases r, 0
  {
    match k
    case Str => if r.BytesRec? then Text(r.bytes) else old'
    case Strs => if r.BytesRec? then Texts(TextsOf(old') + [r.bytes]) else old'
    case Flag => Bit(r.value != 0)
    case Num => Real(r.bytes)
    case Sub(s) => if r.NestedRec? then One(Some(Fold(s, Base(s), r.recs))) else old'
    case Subs(s) => if r.NestedRec? then Many(MessagesOf(old') + [Fold(s, Base(s), r.recs)]) else old'
  }

  function ApplyRec(schema: seq<Kind>, m: Message, r: Rec): (m': Message)
    requires Sized(schema, m)
    ensures Sized(schema, m')
    decreases r, 1
  {
    if !Knows(schema, r) then m
    else Message(m.fields[r.field - 1 := Value(schema[r.field - 1], r, m.fields[r.field - 1])])
  }

  function Fold(schema: seq<Kind>, m: Message, rs: seq<Rec>): (m': Message)
    requires Sized(schema, m)
    ensures Sized(schema, m')
    decreases rs
  {
    if rs == [] then m else Fold(schema, ApplyRec(schema, m, rs[0]), rs[1..])
  }
}
