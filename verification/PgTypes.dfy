/** PostgreSQL's binary value formats (cmd/execdb/pgtype.go). */
module PgTypes {
  import opened Bytes
  import opened Options
  import opened Sqlite

  type Data = seq<Byte>

  const OID_BOOL := 16
  const OID_BYTEA := 17
  const OID_INT8 := 20
  const OID_INT2 := 21
  const OID_INT4 := 23
  const OID_TEXT := 25
  const OID_OID := 26
  const OID_FLOAT4 := 700
  const OID_FLOAT8 := 701
  const OID_TIMESTAMP := 1114
  const OID_NUMERIC := 1700
  const BINARY_CAPABLE := {OID_INT8, OID_FLOAT8, OID_BOOL, OID_BYTEA, OID_TIMESTAMP}

  // ---- Go's 64-bit arithmetic ----------------------------------------------

  const MAX_INT64 := TWO_63 - 1

  predicate IsInt64(x: int) { -TWO_63 <= x <= MAX_INT64 }

  function Wrap64(x: int): int {
    var u := x % TWO_64;
    if u >= TWO_63 then u - TWO_64 else u
  }

  /** time.Time.Sub saturates. */
  function Clamp64(x: int): int {
    if x > MAX_INT64 then MAX_INT64 else if x < -TWO_63 then -TWO_63 else x
  }

  /** Go's division truncates toward zero. */
  function TruncDiv(x: int, d: int): int
    requires d > 0
  {
    if x >= 0 then x / d else -(-x / d)
  }

  /** Int64 values are those that fit eight bytes. */
  lemma Int64Fits(x: int)
    ensures IsInt64(x) <==> Fits(x, 8)
  {
    Powers();
  }

  // ---- Timestamps ----------------------------------------------------------

  const NANOS := 1000
  const MAX_MICROS := 9223372036854775

  /** Whole microseconds between an instant and the epoch, as encodeBinaryTimestamp has them. */
  function Micros(ns: int): (m: int)
    ensures -MAX_MICROS <= m <= MAX_MICROS
  {
    TruncDiv(Clamp64(ns), NANOS)
  }

  /** The instant decodeBinaryParam makes of a count of microseconds. */
  function Nanos(micros: int): (ns: int)
    ensures IsInt64(ns)
  {
    Wrap64(micros * NANOS)
  }

  /** A timestamp parameter decoded and encoded again is unchanged if and only if it is
      within some 292 years of the epoch. */
  lemma MicrosRoundTrip(micros: int)
    requires IsInt64(micros)
    ensures Micros(Nanos(micros)) == micros <==> -MAX_MICROS <= micros <= MAX_MICROS
  {
    if -MAX_MICROS <= micros <= MAX_MICROS {
      assert Nanos(micros) == micros * NANOS;
    }
  }

  /** An instant encoded and decoded again is truncated toward the epoch to a whole
      microsecond, if and only if that many microseconds can be represented. */
  lemma NanosRoundTrip(ns: int)
    ensures Nanos(Micros(ns)) == TruncDiv(ns, NANOS) * NANOS <==> -MAX_MICROS <= TruncDiv(ns, NANOS) <= MAX_MICROS
    ensures IsInt64(ns) ==> Nanos(Micros(ns)) == TruncDiv(ns, NANOS) * NANOS
  {
    var m := Micros(ns);
    assert Nanos(m) == m * NANOS;
    if -MAX_MICROS <= TruncDiv(ns, NANOS) <= MAX_MICROS {
      assert m == TruncDiv(ns, NANOS);
    }
  }

  // ---- Encoding ------------------------------------------------------------

  /** The eight bytes of a signed integer, filled in place. */
  method PutInt64(b: array<Byte>, v: int)
    requires b.Length == 8 && Fits(v, 8)
    modifies b
    ensures b[..] == EncodeInt(v, 8)
  {
    var bytes := EncodeInt(v, 8);
    for i := 0 to 8
      invariant b[..i] == bytes[..i]
    {
      b[i] := bytes[i];
    }
  }

  /** cmd/execdb/pgtype.go: encodeBinaryInt8. */
  method EncodeBinaryInt8(v: int) returns (data: Data)
    requires IsInt64(v)
    ensures |data| == 8 && DecodeInt(data) == v
  {
    Int64Fits(v);
    var b := new Byte[8];
    PutInt64(b, v);
    IntRoundTrip(v, 8);
    return b[..];
  }

  /** cmd/execdb/pgtype.go: encodeBinaryTimestamp. */
  method EncodeBinaryTimestamp(ns: int) returns (data: Data)
    ensures |data| == 8 && DecodeInt(data) == Micros(ns)
  {
    data := EncodeBinaryInt8(Micros(ns));
  }

  /** cmd/execdb/pgtype.go: encodeBinary; None where the value's type is not what the OID
      promises. */
  function EncodeBinary(oid: nat, v: Value): Option<Data> {
    Powers();
    if oid == OID_INT8 && v.Int64? then Some(EncodeInt(v.i, 8))
    else if oid == OID_FLOAT8 && v.Float? then Some(BigEndian(v.bits, 8))
    else if oid == OID_BOOL && v.Int64? then Some([if v.i != 0 then 1 else 0])
    else if oid == OID_BOOL && v.Bool? then Some([if v.b then 1 else 0])
    else if oid == OID_BYTEA && v.Blob? then Some(v.raw)
    else if oid == OID_TIMESTAMP && v.Time? then Some(EncodeInt(Micros(v.ns), 8))
    else None
  }

  /** Turning the bits of a 32-bit float into those of the same 64-bit one. */
  type Widening = nat -> U64

  /** cmd/execdb/pgtype.go: decodeBinaryParam. */
  function DecodeBinary(widen: Widening, oid: nat, data: Data): Option<Value> {
    Powers();
    FromBigEndianBound(data);
    if oid == OID_TEXT then Some(Text(data))
    else if oid == OID_INT2 then if |data| == 2 then (DecodedFits(data); Some(Int64(DecodeInt(data)))) else None
    else if oid == OID_INT4 then if |data| == 4 then (DecodedFits(data); Some(Int64(DecodeInt(data)))) else None
    else if oid == OID_OID then if |data| == 4 then Some(Int64(FromBigEndian(data))) else None
    else if oid == OID_INT8 then if |data| == 8 then (DecodedFits(data); Some(Int64(DecodeInt(data)))) else None
    else if oid == OID_FLOAT4 then if |data| == 4 then Some(Float(widen(FromBigEndian(data)))) else None
    else if oid == OID_FLOAT8 then if |data| == 8 then Some(Float(FromBigEndian(data))) else None
    else if oid == OID_BOOL then if |data| == 1 then Some(Bool(data[0] != 0)) else None
    else if oid == OID_BYTEA then Some(Blob(data))
    else if oid == OID_TIMESTAMP then if |data| == 8 then Some(Time(Nanos(DecodeInt(data)))) else None
    else None
  }

  /** The binary parameters that can be decoded, by type and width. */
  lemma DecodesIff(widen: Widening, oid: nat, data: Data)
    ensures DecodeBinary(widen, oid, data).Some? <==>
              || oid in [17, 25] || (oid == 16 && |data| == 1) || (oid == 21 && |data| == 2)
              || (oid in [23, 26, 700] && |data| == 4) || (oid in [20, 701, 1114] && |data| == 8)
  {
  }

  /** The values that can be encoded, by type. */
  lemma EncodesIff(oid: nat, v: Value)
    ensures EncodeBinary(oid, v).Some? <==>
              || (oid == 16 && (v.Bool? || v.Int64?)) || (oid == 17 && v.Blob?) || (oid == 20 && v.Int64?)
              || (oid == 701 && v.Float?) || (oid == 1114 && v.Time?)
  {
  }

  /** The types that are decoded only.  Two and four bytes of int2 and int4 are a signed number
      in two's complement, and every such number has its bytes; four of oid an unsigned one;
      four of float4 the bits of a float, which is widened; and a text is its own bytes.  A truth
      value is false exactly if its byte is 0. */
  lemma DecodedOnly(widen: Widening, data: Data, x: int)
    ensures -0x8000 <= x < 0x8000 ==> Fits(x, 2) && DecodeBinary(widen, 21, EncodeInt(x, 2)) == Some(Int64(x))
    ensures -0x8000_0000 <= x < 0x8000_0000 ==>
              Fits(x, 4) && DecodeBinary(widen, 23, EncodeInt(x, 4)) == Some(Int64(x))
    ensures 0 <= x < 0x1_0000_0000 ==>
              && DecodeBinary(widen, 26, BigEndian(x, 4)) == Some(Int64(x))
              && DecodeBinary(widen, 700, BigEndian(x, 4)) == Some(Float(widen(x)))
    ensures DecodeBinary(widen, 25, data) == Some(Text(data)) && DecodeBinary(widen, 17, data) == Some(Blob(data))
    ensures |data| == 1 ==> DecodeBinary(widen, 16, data) == Some(Bool(data[0] != 0))
  {
    Powers();
    if Fits(x, 2) { IntRoundTrip(x, 2); }
    if Fits(x, 4) { IntRoundTrip(x, 4); }
    if 0 <= x < TWO_32 { DecodeEncoded(x, 4); }
  }

  /** What a value becomes on the way to the client and back as a parameter. */
  function Normal(oid: nat, v: Value): Value {
    if oid == OID_BOOL && v.Int64? then Bool(v.i != 0)
    else if v.Time? then Time(Nanos(Micros(v.ns)))
    else v
  }

  /** Every encodable value decodes again, to itself or to its normal form; a value is
      encodable only under one of the OIDs announced as binary-capable. */
  lemma EncodeThenDecode(widen: Widening, oid: nat, v: Value)
    requires EncodeBinary(oid, v).Some?
    ensures oid in BINARY_CAPABLE
    ensures DecodeBinary(widen, oid, EncodeBinary(oid, v).value) == Some(Normal(oid, v))
  {
    Powers();
    match v {
      case Int64(i) => IntRoundTrip(i, 8);
      case Float(bits) => DecodeEncoded(bits, 8);
      case Time(ns) => IntRoundTrip(Micros(ns), 8);
      case _ =>
    }
  }

  /** Every decodable parameter of a binary-capable type encodes again, and to the same
      bytes but for a truth value other than 0 and 1 and a timestamp out of range. */
  lemma DecodeThenEncode(widen: Widening, oid: nat, data: Data)
    requires oid in BINARY_CAPABLE && DecodeBinary(widen, oid, data).Some?
    ensures EncodeBinary(oid, DecodeBinary(widen, oid, data).value) == Some(data) <==>
            (oid == OID_BOOL ==> data[0] <= 1) &&
            (oid == OID_TIMESTAMP ==> -MAX_MICROS <= DecodeInt(data) <= MAX_MICROS)
  {
    Powers();
    if oid == OID_BOOL {
      assert data == [data[0]];
    } else if |data| == 8 {
      DecodedFits(data);
      EncodeDecoded(data);
      if oid == OID_TIMESTAMP {
        MicrosRoundTrip(DecodeInt(data));
        IntRoundTrip(Micros(Nanos(DecodeInt(data))), 8);
      }
    }
  }

  // ---- Sending a value -----------------------------------------------------

  /** How a value goes out in a DataRow: as NULL, in binary, or as its text. */
  datatype Payload = Absent | InBinary(bytes: Data) | InText

  /** cmd/execdb/pgtype.go: pgEncodeValue, the text itself left abstract.  Where the binary
      encoder does not take the value, its text is sent instead. */
  function EncodeValue(oid: nat, useBinary: bool, v: Value): Payload {
    if v.Null? then Absent
    else if useBinary && EncodeBinary(oid, v).Some? then InBinary(EncodeBinary(oid, v).value)
    else InText
  }

  /** What a client that trusts the announced format makes of a payload: NULL, the value its
      binary bytes stand for, or text; `Garbled` is text it takes for binary. */
  datatype Reading = IsNull | IsValue(v: Value) | IsText | Garbled

  function ReadAs(widen: Widening, oid: nat, binary: bool, p: Payload): Reading {
    match p
    case Absent => IsNull
    case InText => if binary then Garbled else IsText
    case InBinary(bytes) =>
      match DecodeBinary(widen, oid, bytes) case None => Garbled case Some(v) => IsValue(v)
  }

  /** The client reads a value as announced, NULL or the value itself or its text, if and only
      if the column is text, the value is NULL, or the binary encoder takes it. */
  lemma ReadsAsAnnounced(widen: Widening, oid: nat, binary: bool, v: Value)
    ensures var r := ReadAs(widen, oid, binary, EncodeValue(oid, binary, v));
            && (!r.Garbled? <==> !binary || v.Null? || EncodeBinary(oid, v).Some?)
            && (!r.Garbled? ==> r == if v.Null? then IsNull else if binary then IsValue(Normal(oid, v)) else IsText)
  {
    if EncodeBinary(oid, v).Some? {
      EncodeThenDecode(widen, oid, v);
    }
  }
}
