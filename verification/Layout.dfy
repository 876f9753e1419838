/** Two more message layouts (cmd/execdb/pgproto.go; PostgreSQL 16, section 55.7): the
    parameters of a StartupMessage, and RowDescription. */
module Layout {
  import opened Bytes
  import opened Options
  import opened Wire
  import PgTypes
  import Sqlite

  // ---- StartupMessage ------------------------------------------------------

  type Pair = (Data, Data)
  type Params = map<Data, Data>

  /** Names and values in turn, each ended by a NUL. */
  function EncodePairs(pairs: seq<Pair>): Data {
    if pairs == [] then [] else CString(pairs[0].0) + (CString(pairs[0].1) + EncodePairs(pairs[1..]))
  }

  /** Assigning the pairs in order; the last value given for a name stays. */
  function Assign(params: Params, pairs: seq<Pair>): Params
    decreases |pairs|
  {
    if pairs == [] then params else Assign(params[pairs[0].0 := pairs[0].1], pairs[1..])
  }

  /** The parameters in `s`, added to `params`; an empty name or the end of `s` ends them. */
  function ReadParams(s: Data, params: Params): Option<Params>
    decreases |s|
  {
    if s == [] || s[0] == 0 then Some(params)
    else match ReadCString(s)
         case None => None
         case Some(key) => match ReadCString(key.1)
           case None => None
           case Some(val) => ReadParams(val.1, params[key.0 := val.0])
  }

  /** The pairs before the first empty name. */
  function Named(pairs: seq<Pair>): seq<Pair> {
    if pairs == [] || pairs[0].0 == [] then [] else [pairs[0]] + Named(pairs[1..])
  }

  predicate AllNulFree(pairs: seq<Pair>) {
    forall p :: p in pairs ==> NulFree(p.0) && NulFree(p.1)
  }

  /** Reading gives back what was written before the first empty name: all of it, where no
      name is empty, whatever follows the final NUL. */
  lemma {:induction false} ParamsRoundTrip(pairs: seq<Pair>, rest: Data, params: Params)
    requires AllNulFree(pairs)
    ensures ReadParams(EncodePairs(pairs) + [0] + rest, params) == Some(Assign(params, Named(pairs)))
  {
    var s := EncodePairs(pairs) + [0] + rest;
    if pairs != [] {
      var p, tail := pairs[0], EncodePairs(pairs[1..]) + [0] + rest;
      assert p in pairs;
      assert s == CString(p.0) + (CString(p.1) + tail);
      if p.0 == [] {
        assert s[0] == 0;
      } else {
        assert s[0] == p.0[0] && p.0[0] in p.0;
        CStringRead(p.0, CString(p.1) + tail);
        CStringRead(p.1, tail);
        ParamsRoundTrip(pairs[1..], rest, params[p.0 := p.1]);
        assert ([p] + Named(pairs[1..]))[1..] == Named(pairs[1..]);
      }
    }
  }

  /** What assigning comes to: each name has the value it was given last. */
  lemma {:induction false} LastValueStays(params: Params, pairs: seq<Pair>, name: Data)
    ensures var r := Assign(params, pairs);
            && (name in r <==> name in params || exists i :: 0 <= i < |pairs| && pairs[i].0 == name)
            && forall i :: 0 <= i < |pairs| && pairs[i].0 == name
                           && (forall j :: i < j < |pairs| ==> pairs[j].0 != name) ==>
                 name in r && r[name] == pairs[i].1
    ensures (forall i :: 0 <= i < |pairs| ==> pairs[i].0 != name) && name in params ==>
              Assign(params, pairs)[name] == params[name]
    decreases |pairs|
  {
    if pairs != [] {
      var (first, rest) := (pairs[0], pairs[1..]);
      LastValueStays(params[first.0 := first.1], rest, name);
      assert forall i :: 0 < i < |pairs| ==> pairs[i] == rest[i - 1];
    }
  }

  /** cmd/execdb/pgproto.go: readStartupParams, on the bytes read. */
  method ReadStartupParams(buf: Data) returns (params: Params, ok: bool)
    ensures match ReadParams(buf, map[]) case None => !ok case Some(m) => ok && params == m
  {
    params := map[];
    var i := 0;
    assert buf[0..] == buf;
    while i < |buf| && buf[i] != 0
      invariant 0 <= i <= |buf| && ReadParams(buf[i..], params) == ReadParams(buf, map[])
      decreases |buf| - i
    {
      var key, next, found := ScanCString(buf, i);
      if !found { return params, false; }
      var val, next2;
      val, next2, found := ScanCString(buf, next);
      if !found { return params, false; }
      assert |buf[i..]| == |key| + 1 + |buf[next..]| && |buf[next..]| == |val| + 1 + |buf[next2..]|;
      params := params[key := val];
      i := next2;
    }
    return params, true;
  }

  // ---- RowDescription ------------------------------------------------------

  /** A column of a result: its name, type OID and format. */
  datatype Described = Described(name: Data, oid: nat, binary: bool)
  {
    predicate Valid() { NulFree(name) && oid < TWO_32 }
  }

  /** cmd/execdb/pgtype.go: pgTypLen. */
  function TypLen(oid: nat): int {
    if oid == PgTypes.OID_BOOL then 1
        else if oid in {PgTypes.OID_INT8, PgTypes.OID_FLOAT8, PgTypes.OID_TIMESTAMP} then 8 else -1
  }

  /** Table OID, attribute number, type OID, type size, type modifier, format code. */
  function FieldTail(c: Described): (t: Data)
    ensures |t| == 18
  {
    TypeFields(c.oid) + FormatFields(c.binary)
  }

  function TypeFields(oid: nat): (t: Data)
    ensures |t| == 12
  {
    Powers();
    [0, 0, 0, 0] + [0, 0] + BigEndian(oid, 4) + EncodeInt(TypLen(oid), 2)
  }

  function FormatFields(binary: bool): (t: Data)
    ensures |t| == 6
  {
    Powers();
    EncodeInt(-1, 4) + BigEndian(if binary then 1 else 0, 2)
  }

  function Fields(cols: seq<Described>): Data {
    if cols == [] then [] else CString(cols[0].name) + (FieldTail(cols[0]) + Fields(cols[1..]))
  }

  /** A client reading one field: its name, OID, announced size and format code. */
  function ReadField(s: Data): Option<(Data, nat, int, nat, Data)> {
    match ReadCString(s)
    case None => None
    case Some(p) =>
      var t := p.1;
      if |t| < 18 then None
      else Some((p.0, FromBigEndian(t[6..10]), DecodeInt(t[10..12]), FromBigEndian(t[16..18]), t[18..]))
  }

  /** Reading `n` fields the way a client does. */
  function ReadFields(s: Data, n: nat): Option<(seq<Described>, Data)>
    decreases n
  {
    if n == 0 then Some(([], s))
    else match ReadField(s)
         case None => None
         case Some(f) => match ReadFields(f.4, n - 1)
                         case None => None
                         case Some(q) => Some(([Described(f.0, f.1, f.3 == 1)] + q.0, q.1))
  }

  /** The parts of a field a client has no use for here: no table, no attribute, no modifier. */
  lemma UnusedParts(c: Described)
    ensures var t := FieldTail(c); t[0..6] == [0, 0, 0, 0, 0, 0] && t[12..16] == [255, 255, 255, 255]
  {
    Powers();
    assert EncodeInt(-1, 4) == BigEndian(0xffff_ffff, 4);
    assert BigEndian(0xffff, 2) == [255, 255] && BigEndian(0xff_ffff, 3) == [255, 255, 255];
    assert BigEndian(0xffff_ffff, 4) == [255, 255, 255, 255];
  }

  lemma FieldRead(c: Described, rest: Data)
    requires c.Valid()
    ensures ReadField(CString(c.name) + (FieldTail(c) + rest)) ==
            Some((c.name, c.oid, TypLen(c.oid), if c.binary then 1 else 0, rest))
  {
    Powers();
    var t := FieldTail(c) + rest;
    var format := if c.binary then 1 else 0;
    CStringRead(c.name, t);
    assert t[..12] == TypeFields(c.oid) && t[12..18] == FormatFields(c.binary) && t[18..] == rest;
    assert t[6..10] == t[..12][6..10] == BigEndian(c.oid, 4);
    assert t[10..12] == t[..12][10..12] == EncodeInt(TypLen(c.oid), 2);
    assert t[16..18] == t[12..18][4..6] == BigEndian(format, 2);
    DecodeEncoded(c.oid, 4);
    IntRoundTrip(TypLen(c.oid), 2);
    DecodeEncoded(format, 2);
  }

  lemma {:induction false} FieldsRead(cols: seq<Described>, rest: Data)
    requires forall c :: c in cols ==> c.Valid()
    ensures ReadFields(Fields(cols) + rest, |cols|) == Some((cols, rest))
  {
    if cols == [] {
      assert Fields(cols) + rest == rest;
    } else {
      var c, tail := cols[0], Fields(cols[1..]) + rest;
      assert c in cols;
      assert Fields(cols) + rest == CString(c.name) + (FieldTail(c) + tail);
      FieldRead(c, tail);
      FieldsRead(cols[1..], rest);
      assert [c] + cols[1..] == cols;
    }
  }

  const ROW_DESCRIPTION: Byte := 84

  function DescriptionBody(cols: seq<Described>): Data { CountField(|cols|) + Fields(cols) }

  /** The columns a client makes of the bytes of one message. */
  function ReadRowDescription(s: Data): Option<seq<Described>> {
    match ReadFrame(s)
    case None => None
    case Some(f) =>
      if f.0.typ != ROW_DESCRIPTION || f.1 != [] then None
      else match ReadCount(f.0.body)
           case None => None
           case Some(count) => match ReadFields(count.1, count.0)
             case None => None
             case Some(cols) => if cols.1 == [] then Some(cols.0) else None
  }

  /** cmd/execdb/pgproto.go: writeRowDescription.  The client gets the columns back, as long as
      the count and the length fit their fields. */
  method WriteRowDescription(cols: seq<Described>) returns (out: Data)
    requires forall c :: c in cols ==> c.Valid()
    ensures out == Frame(Message(ROW_DESCRIPTION, DescriptionBody(cols)))
    ensures |cols| < TWO_16 && |DescriptionBody(cols)| + 4 < TWO_31 ==> ReadRowDescription(out) == Some(cols)
  {
    var b := new MsgBuilder();
    b.AddCount(|cols|);
    for i := 0 to |cols|
      invariant b.buf + Fields(cols[i..]) == DescriptionBody(cols)
    {
      FieldsFrom(b.buf, cols, i);
      AddField(b, cols[i]);
    }
    assert b.buf + Fields(cols[|cols|..]) == b.buf;
    out := WriteMessage(ROW_DESCRIPTION, b.buf);
    if |cols| < TWO_16 {
      CountRead(|cols|, Fields(cols));
      FieldsRead(cols, []);
      assert Fields(cols) + [] == Fields(cols);
    }
  }

  lemma FieldsFrom(before: Data, cols: seq<Described>, i: nat)
    requires i < |cols|
    ensures before + Fields(cols[i..]) == before + (CString(cols[i].name) + FieldTail(cols[i])) + Fields(cols[i + 1..])
  {
    var name, tail, rest := CString(cols[i].name), FieldTail(cols[i]), Fields(cols[i + 1..]);
    assert cols[i..][1..] == cols[i + 1..];
    assert before + (name + (tail + rest)) == before + (name + tail) + rest;
  }

  method AddField(b: MsgBuilder, c: Described)
    requires c.Valid()
    modifies b
    ensures b.buf == old(b.buf) + (CString(c.name) + FieldTail(c))
  {
    ghost var start := b.buf;
    b.AddCString(c.name);
    AddTypeFields(b, c.oid);
    AddFormatFields(b, c.binary);
    Regrouped(start, CString(c.name), TypeFields(c.oid), FormatFields(c.binary));
  }

  lemma Regrouped(a: Data, b: Data, c: Data, d: Data)
    ensures a + b + c + d == a + (b + (c + d))
  {
    assert a + b + c + d == a + b + (c + d);
  }

  method AddTypeFields(b: MsgBuilder, oid: nat)
    requires oid < TWO_32
    modifies b
    ensures b.buf == old(b.buf) + TypeFields(oid)
  {
    ghost var start := b.buf;
    Powers();
    Zeros();
    b.AddInt(0, 4);
    b.AddInt(0, 2);
    b.AddUnsigned(oid, 4);
    b.AddInt(TypLen(oid), 2);
    assert start + [0, 0, 0, 0] + [0, 0] + BigEndian(oid, 4) + EncodeInt(TypLen(oid), 2) == start + TypeFields(oid);
  }

  method AddFormatFields(b: MsgBuilder, binary: bool)
    modifies b
    ensures b.buf == old(b.buf) + FormatFields(binary)
  {
    ghost var start := b.buf;
    Powers();
    b.AddInt(-1, 4);
    b.AddUnsigned(if binary then 1 else 0, 2);
    assert b.buf == start + FormatFields(binary);
  }

  lemma Zeros()
    ensures Bytes.Fits(0, 4) && Bytes.Fits(0, 2) && EncodeInt(0, 4) == [0, 0, 0, 0] && EncodeInt(0, 2) == [0, 0]
  {
    Powers();
    assert BigEndian(0, 1) == [0] && BigEndian(0, 2) == [0, 0] && BigEndian(0, 3) == [0, 0, 0];
  }

  // ---- ParameterDescription ------------------------------------------------

  type Oid = x: int | 0 <= x < TWO_32

  function OidFields(oids: seq<Oid>): Data {
    if oids == [] then [] else BigEndian(oids[0], 4) + OidFields(oids[1..])
  }

  function ParameterBody(oids: seq<Oid>): Data { CountField(|oids|) + OidFields(oids) }

  /** What a client makes of the body: the count, and that many OIDs. */
  function ReadParameters(body: Data): Option<seq<nat>> {
    match ReadCount(body)
    case None => None
    case Some(count) => ReadOids(count.1, count.0)
  }

  function ReadOids(s: Data, n: nat): (r: Option<seq<nat>>)
    ensures r.Some? ==> |r.value| == n
    decreases n
  {
    if n == 0 then Some([])
    else if |s| < 4 then None
    else match ReadOids(s[4..], n - 1)
         case None => None
         case Some(oids) => Some([FromBigEndian(s[..4])] + oids)
  }

  lemma {:induction false} OidsRead(oids: seq<Oid>)
    ensures var r := ReadOids(OidFields(oids), |oids|);
            r.Some? && |r.value| == |oids| && forall i :: 0 <= i < |oids| ==> r.value[i] == oids[i]
  {
    if oids != [] {
      var s := OidFields(oids);
      Powers();
      DecodeEncoded(oids[0], 4);
      assert s[..4] == BigEndian(oids[0], 4) && s[4..] == OidFields(oids[1..]);
      OidsRead(oids[1..]);
    }
  }

  predicate SameOids(r: Option<seq<nat>>, oids: seq<Oid>) {
    r.Some? && |r.value| == |oids| && forall i :: 0 <= i < |oids| ==> r.value[i] == oids[i]
  }

  const PARAMETER_DESCRIPTION: Byte := 116

  /** cmd/execdb/pgproto.go: writeParameterDescription.  The client gets the OIDs back if and
      only if their number fits the count field, which the program converts without a check. */
  method WriteParameterDescription(oids: seq<Oid>) returns (out: Data)
    ensures out == Frame(Message(PARAMETER_DESCRIPTION, ParameterBody(oids)))
    ensures SameOids(ReadParameters(ParameterBody(oids)), oids) <==> |oids| < TWO_16
  {
    var b := new MsgBuilder();
    b.AddCount(|oids|);
    for i := 0 to |oids|
      invariant b.buf + OidFields(oids[i..]) == ParameterBody(oids)
    {
      ghost var before := b.buf;
      Powers();
      b.AddUnsigned(oids[i], 4);
      OidsFrom(before, oids, i);
    }
    assert b.buf + OidFields(oids[|oids|..]) == b.buf;
    out := WriteMessage(PARAMETER_DESCRIPTION, b.buf);
    ParametersRead(oids);
  }

  lemma OidsFrom(before: Data, oids: seq<Oid>, i: nat)
    requires i < |oids|
    ensures before + OidFields(oids[i..]) == before + BigEndian(oids[i], 4) + OidFields(oids[i + 1..])
  {
    var first, rest := BigEndian(oids[i], 4), OidFields(oids[i + 1..]);
    assert oids[i..][1..] == oids[i + 1..];
    assert before + (first + rest) == before + first + rest;
  }

  lemma ParametersRead(oids: seq<Oid>)
    ensures SameOids(ReadParameters(ParameterBody(oids)), oids) <==> |oids| < TWO_16
  {
    var body := ParameterBody(oids);
    if |oids| < TWO_16 {
      CountRead(|oids|, OidFields(oids));
      OidsRead(oids);
    } else {
      CountFits(body);
    }
  }

  /** The size announced for a fixed-length type is the size of every value sent in binary. */
  lemma AnnouncedSizeIsReal(oid: nat, v: Sqlite.Value)
    requires PgTypes.EncodeBinary(oid, v).Some? && TypLen(oid) >= 0
    ensures |PgTypes.EncodeBinary(oid, v).value| == TypLen(oid)
  {
  }

  /** Two values of the type are sent in binary with different sizes. */
  ghost predicate Varies(oid: nat) {
    exists v, w :: && PgTypes.EncodeBinary(oid, v).Some? && PgTypes.EncodeBinary(oid, w).Some?
      && |PgTypes.EncodeBinary(oid, v).value| != |PgTypes.EncodeBinary(oid, w).value|
  }

  /** A size is announced for exactly the types that are sent in binary and have just one; for the
      others it is -1. */
  lemma SizeAnnouncedIffFixed(oid: nat)
    ensures TypLen(oid) >= 0 <==> oid in PgTypes.BINARY_CAPABLE && !Varies(oid)
    ensures TypLen(oid) < 0 ==> TypLen(oid) == -1
  {
    if oid == PgTypes.OID_BYTEA {
      assert PgTypes.EncodeBinary(oid, Sqlite.Blob([])) == Some([]);
      assert PgTypes.EncodeBinary(oid, Sqlite.Blob([0])) == Some([0]);
      assert Varies(oid);
    }
  }
}
