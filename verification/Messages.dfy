/** The message types of the two services, as field kinds in field-number order. */
module Messages {
  import opened Basics
  import opened Wire
  import opened WireLaws
  import opened RoundTrip
  import Codec

  function Strings(n: nat): (s: seq<Kind>)
    ensures |s| == n && forall i :: 0 <= i < n ==> s[i] == Str
  {
    seq(n, i => Str)
  }

  // seat-inventory
  const SEAT_INFO: seq<Kind> := Strings(13)
  const GET_SEATS_BY_EVENT_REQUEST: seq<Kind> := [Str]
  const GET_SEATS_BY_EVENT_RESPONSE: seq<Kind> := [Subs(SEAT_INFO)]
  const VERIFY_HOLD_REQUEST: seq<Kind> := [Str, Strs, Str]
  const VERIFY_HOLD_RESPONSE: seq<Kind> := [Flag]
  const HOLD_SEATS_REQUEST: seq<Kind> := [Str, Strs, Str, Str]
  const HOLD_SEATS_RESPONSE: seq<Kind> := [Flag, Strs, Str, Strs]
  const RELEASE_SEATS_REQUEST: seq<Kind> := [Str, Strs, Str, Str]
  const MARK_SEATS_AS_SOLD_REQUEST: seq<Kind> := [Str, Strs, Str]
  const RELEASE_SOLD_SEATS_REQUEST: seq<Kind> := [Str, Strs]
  const SUCCESS_RESPONSE: seq<Kind> := [Flag] // of a release, of a sale and of a release of sold seats

  // payment
  const INITIATE_PAYMENT_REQUEST: seq<Kind> := [Str, Str, Num, Str, Str, Str, Str]
  const PAYMENT_INFO: seq<Kind> := Strings(11)
  const INITIATE_PAYMENT_RESPONSE: seq<Kind> := [Sub(PAYMENT_INFO)]
  const GET_PAYMENT_REQUEST: seq<Kind> := [Str]
  const GET_PAYMENTS_BY_BOOKING_REQUEST: seq<Kind> := [Str]
  const GET_PAYMENTS_BY_BOOKING_RESPONSE: seq<Kind> := [Subs(PAYMENT_INFO)]
  const REFUND_PAYMENT_REQUEST: seq<Kind> := [Str, Str, Str]
  const REFUND_PAYMENT_RESPONSE: seq<Kind> := [Flag, Str, Str]

  function Tags(schema: seq<Kind>): (t: seq<nat>)
    ensures |t| == |schema| && forall i :: 0 <= i < |t| ==> t[i] == Codec.Tag(schema[i], i + 1)
  {
    seq(|schema|, i requires 0 <= i < |schema| => Codec.Tag(schema[i], i + 1))
  }

  /** The tags that the generated code writes as literals. */
  lemma {:induction false} GeneratedTags()
    ensures Tags(SEAT_INFO) == [10, 18, 26, 34, 42, 50, 58, 66, 74, 82, 90, 98, 106]
    ensures Tags(PAYMENT_INFO) == [10, 18, 26, 34, 42, 50, 58, 66, 74, 82, 90]
    ensures Tags(INITIATE_PAYMENT_REQUEST) == [10, 18, 25, 34, 42, 50, 58]
    ensures Tags(GET_SEATS_BY_EVENT_RESPONSE) == Tags(INITIATE_PAYMENT_RESPONSE)
            == Tags(GET_PAYMENTS_BY_BOOKING_RESPONSE) == [10]
    ensures Tags(HOLD_SEATS_REQUEST) == Tags(RELEASE_SEATS_REQUEST) == [10, 18, 26, 34]
    ensures Tags(RELEASE_SOLD_SEATS_REQUEST) == [10, 18] && Tags(REFUND_PAYMENT_REQUEST) == [10, 18, 26]
    ensures Tags(VERIFY_HOLD_RESPONSE) == Tags(SUCCESS_RESPONSE) == [8]
    ensures Tags(GET_SEATS_BY_EVENT_REQUEST) == Tags(GET_PAYMENT_REQUEST) == Tags(GET_PAYMENTS_BY_BOOKING_REQUEST)
            == [10]
    ensures Tags(VERIFY_HOLD_REQUEST) == Tags(MARK_SEATS_AS_SOLD_REQUEST) == [10, 18, 26]
    ensures Tags(HOLD_SEATS_RESPONSE) == [8, 18, 26, 34]
    ensures Tags(REFUND_PAYMENT_RESPONSE) == [8, 18, 26]
  {
  }

  // ----- exact round trips

  predicate NoDoubles(schema: seq<Kind>) {
    forall i :: 0 <= i < |schema| ==> HasNoDouble(schema[i])
  }

  predicate HasNoDouble(k: Kind) {
    match k
    case Num => false
    case Sub(s) => NoDoubles(s)
    case Subs(s) => NoDoubles(s)
    case _ => true
  }

  lemma {:induction false} NoDoublesNoNegativeZero(schema: seq<Kind>, m: Message)
    requires Encodable(schema, m) && NoDoubles(schema)
    ensures NoNegativeZero(m)
    decreases m
  {
    forall i | 0 <= i < |m.fields| ensures FieldHasNone(m.fields[i]) {
      assert FieldEncodable(schema[i], m.fields[i]) && HasNoDouble(schema[i]);
      match m.fields[i]
      case One(Some(n)) => NoDoublesNoNegativeZero(schema[i].schema, n);
      case Many(ms) =>
        forall j | 0 <= j < |ms| ensures NoNegativeZero(ms[j]) {
          NoDoublesNoNegativeZero(schema[i].schema, ms[j]);
        }
      case _ =>
    }
  }

  /** Every type but the payment request is decoded exactly as it was encoded. */
  lemma {:induction false} ExactRoundTrip(schema: seq<Kind>, m: Message)
    requires Encodable(schema, m) && NoDoubles(schema)
    ensures Decode(schema, Encode(schema, m)) == Some(m)
  {
    NoDoublesNoNegativeZero(schema, m);
    RoundTripIff(schema, m);
  }

  lemma {:induction false} TypesWithoutDoubles()
    ensures NoDoubles(SEAT_INFO) && NoDoubles(GET_SEATS_BY_EVENT_RESPONSE) && NoDoubles(VERIFY_HOLD_REQUEST)
    ensures NoDoubles(VERIFY_HOLD_RESPONSE) && NoDoubles(HOLD_SEATS_REQUEST) && NoDoubles(HOLD_SEATS_RESPONSE)
    ensures NoDoubles(RELEASE_SEATS_REQUEST) && NoDoubles(MARK_SEATS_AS_SOLD_REQUEST)
    ensures NoDoubles(RELEASE_SOLD_SEATS_REQUEST)
    ensures NoDoubles(PAYMENT_INFO) && NoDoubles(INITIATE_PAYMENT_RESPONSE)
    ensures NoDoubles(GET_PAYMENTS_BY_BOOKING_RESPONSE)
    ensures NoDoubles(GET_SEATS_BY_EVENT_REQUEST) && NoDoubles(SUCCESS_RESPONSE)
    ensures NoDoubles(GET_PAYMENT_REQUEST) && NoDoubles(GET_PAYMENTS_BY_BOOKING_REQUEST)
    ensures NoDoubles(REFUND_PAYMENT_REQUEST) && NoDoubles(REFUND_PAYMENT_RESPONSE)
  {
    assert NoDoubles(SEAT_INFO) && NoDoubles(PAYMENT_INFO);
  }

  /** A payment request is decoded exactly unless its amount is a negative zero. */
  lemma {:induction false} PaymentRequestRoundTripIff(m: Message)
    requires Encodable(INITIATE_PAYMENT_REQUEST, m)
    ensures Decode(INITIATE_PAYMENT_REQUEST, Encode(INITIATE_PAYMENT_REQUEST, m)) == Some(m)
            <==> m.fields[2] != Real(NEGATIVE_ZERO)
  {
    RoundTripIff(INITIATE_PAYMENT_REQUEST, m);
    assert forall i :: 0 <= i < 7 ==> FieldEncodable(INITIATE_PAYMENT_REQUEST[i], m.fields[i]);
    assert NoNegativeZero(m) <==> FieldHasNone(m.fields[2]);
  }
}
