/** Message framing and the Parse and Bind bodies (cmd/execdb/pgproto.go,
    cmd/execdb/pgextended.go; PostgreSQL 16, section 55.7). */
module Wire {
  import opened Bytes
  import opened Options

  type Data = seq<Byte>

  // ---- Building a body -----------------------------------------------------

  function CString(s: Data): Data { s + [0] }

  function Ints(xs: seq<int>, width: nat): Data
    requires forall x :: x in xs ==> Fits(x, width)
  {
    if xs == [] then [] else EncodeInt(xs[0], width) + Ints(xs[1..], width)
  }

  /** A count field: Go's int16(n), whose bytes are those of n modulo 65536. */
  function CountField(n: nat): Data { BigEndian(n % TWO_16, 2) }

  predicate FitsInt32(n: nat) { n < TWO_31 }

  /** One value: its length and bytes, or length -1 for NULL. */
  function ValueField(v: Option<Data>): Data
    requires v.Some? ==> FitsInt32(|v.value|)
  {
    if v.None? then [255, 255, 255, 255] else BigEndian(|v.value|, 4) + v.value
  }

  /** Every value's length fits its field. */
  predicate Short(vs: seq<Option<Data>>) {
    forall i :: 0 <= i < |vs| && vs[i].Some? ==> FitsInt32(|vs[i].value|)
  }

  function Values(vs: seq<Option<Data>>): Data
    requires Short(vs)
  {
    if vs == [] then [] else ValueField(vs[0]) + Values(vs[1..])
  }

  /** cmd/execdb/pgproto.go: msgBuilder. */
  class MsgBuilder {
    var buf: Data

    constructor ()
      ensures buf == []
    {
      buf := [];
    }

    method AddCString(s: Data)
      modifies this
      ensures buf == old(buf) + CString(s)
    {
      buf := buf + s;
      buf := buf + [0];
    }

    method AddInt(x: int, width: nat)
      requires Fits(x, width)
      modifies this
      ensures buf == old(buf) + EncodeInt(x, width)
    {
      buf := buf + EncodeInt(x, width);
    }

    /** Go's int32(oid) and the like: the bytes are those of the unsigned number. */
    method AddUnsigned(n: nat, width: nat)
      requires n < Pow256(width)
      modifies this
      ensures buf == old(buf) + BigEndian(n, width)
    {
      buf := buf + BigEndian(n, width);
    }

    method AddCount(n: nat)
      modifies this
      ensures buf == old(buf) + CountField(n)
    {
      buf := buf + BigEndian(n % TWO_16, 2);
    }

    method AddInts(xs: seq<int>, width: nat)
      requires forall x :: x in xs ==> Fits(x, width)
      modifies this
      ensures buf == old(buf) + Ints(xs, width)
    {
      for i := 0 to |xs|
        invariant buf + Ints(xs[i..], width) == old(buf) + Ints(xs, width)
      {
        assert xs[i..][1..] == xs[i + 1..];
        AddInt(xs[i], width);
      }
    }

    /** The value loop of cmd/execdb/pgproto.go: writeDataRow; a Bind message has the same. */
    method AddValues(vs: seq<Option<Data>>)
      requires Short(vs)
      modifies this
      ensures buf == old(buf) + Values(vs)
    {
      for i := 0 to |vs|
        invariant buf + Values(vs[i..]) == old(buf) + Values(vs)
      {
        ValuesFrom(buf, vs, i);
        AddValue(vs[i]);
      }
    }

    method AddValue(v: Option<Data>)
      requires v.Some? ==> FitsInt32(|v.value|)
      modifies this
      ensures buf == old(buf) + ValueField(v)
    {
      if v.None? {
        buf := buf + [255, 255, 255, 255];
        return;
      }
      buf := buf + BigEndian(|v.value|, 4);
      buf := buf + v.value;
    }
  }

  lemma ValuesFrom(before: Data, vs: seq<Option<Data>>, i: nat)
    requires Short(vs) && i < |vs|
    ensures before + Values(vs[i..]) == before + ValueField(vs[i]) + Values(vs[i + 1..])
  {
    assert vs[i..][1..] == vs[i + 1..];
    assert before + (ValueField(vs[i]) + Values(vs[i + 1..])) == before + ValueField(vs[i]) + Values(vs[i + 1..]);
  }

  // ---- Framing -------------------------------------------------------------

  datatype Message = Message(typ: Byte, body: Data)

  /** cmd/execdb/pgproto.go: writeMessage; the length is converted to uint32. */
  function Frame(m: Message): Data {
    [m.typ] + BigEndian((4 + |m.body|) % TWO_32, 4) + m.body
  }

  /** cmd/execdb/pgproto.go: readFrontendMessage, on the bytes still to come. */
  function ReadFrame(s: Data): Option<(Message, Data)> {
    if |s| < 5 then None
    else
      var length := DecodeInt(s[1..5]);
      if length < 4 || |s| < length + 1 then None
      else Some((Message(s[0], s[5..length + 1]), s[length + 1..]))
  }

  /** A message survives the wire if and only if its length field fits a signed int32. */
  lemma FrameRoundTrip(m: Message, rest: Data)
    ensures ReadFrame(Frame(m) + rest) == Some((m, rest)) <==> |m.body| + 4 < TWO_31
  {
    Powers();
    var n := (4 + |m.body|) % TWO_32;
    var s := Frame(m) + rest;
    DecodeEncoded(n, 4);
    assert s[1..5] == BigEndian(n, 4);
    if |m.body| + 4 < TWO_31 {
      assert s[5..n + 1] == m.body && s[n + 1..] == rest;
    }
  }

  function Frames(ms: seq<Message>): Data {
    if ms == [] then [] else Frame(ms[0]) + Frames(ms[1..])
  }

  /** The first `n` messages of a stream, and what is left of it. */
  function ReadFrames(s: Data, n: nat): Option<(seq<Message>, Data)> {
    if n == 0 then Some(([], s))
    else match ReadFrame(s)
         case None => None
         case Some(p) => match ReadFrames(p.1, n - 1)
                         case None => None
                         case Some(q) => Some(([p.0] + q.0, q.1))
  }

  /** Reading what was written back to back gives the same messages, and consumes exactly
      their bytes, whatever comes after. */
  lemma {:induction false} StreamRoundTrip(ms: seq<Message>, rest: Data)
    requires forall m :: m in ms ==> |m.body| + 4 < TWO_31
    ensures ReadFrames(Frames(ms) + rest, |ms|) == Some((ms, rest))
  {
    if ms == [] {
      assert Frames(ms) + rest == rest;
    } else {
      assert ms[0] in ms;
      assert Frames(ms) + rest == Frame(ms[0]) + (Frames(ms[1..]) + rest);
      FrameRoundTrip(ms[0], Frames(ms[1..]) + rest);
      StreamRoundTrip(ms[1..], rest);
      assert ms == [ms[0]] + ms[1..];
    }
  }

  /** The bytes still to come on a connection. */
  class Stream {
    var rest: Data

    constructor (rest: Data)
      ensures this.rest == rest
    {
      this.rest := rest;
    }

    /** io.ReadFull. */
    method ReadFull(n: nat) returns (r: Option<Data>)
      modifies this
      ensures if n <= |old(rest)| then r == Some(old(rest)[..n]) && rest == old(rest)[n..] else r == None && rest == []
    {
      if n > |rest| {
        rest := [];
        return None;
      }
      r := Some(rest[..n]);
      rest := rest[n..];
    }

    /** cmd/execdb/pgproto.go: readFrontendMessage. */
    method ReadFrontendMessage() returns (m: Option<Message>)
      modifies this
      ensures match ReadFrame(old(rest)) case None => m == None case Some(p) => m == Some(p.0) && rest == p.1
    {
      ghost var s := rest;
      var typ := ReadFull(1);
      if typ.None? {
        return None;
      }
      var lenBuf := ReadFull(4);
      if lenBuf.None? {
        return None;
      }
      assert s[1..][..4] == s[1..5] && s[1..][4..] == s[5..];
      var length := DecodeInt(lenBuf.value);
      if length < 4 {
        return None;
      }
      var body := ReadFull(length - 4);
      if body.None? {
        return None;
      }
      assert s[5..][..length - 4] == s[5..length + 1] && s[5..][length - 4..] == s[length + 1..];
      return Some(Message(typ.value[0], body.value));
    }
  }

  /** cmd/execdb/pgproto.go: writeMessage. */
  method WriteMessage(typ: Byte, body: Data) returns (out: Data)
    ensures out == Frame(Message(typ, body))
    ensures |body| + 4 < TWO_31 ==> ReadFrame(out) == Some((Message(typ, body), []))
  {
    out := [typ];
    out := out + BigEndian((4 + |body|) % TWO_32, 4);
    out := out + body;
    FrameRoundTrip(Message(typ, body), []);
    assert out + [] == out;
  }

  // ---- Reading a body ------------------------------------------------------

  predicate NulFree(s: Data) { 0 !in s }

  /** The string up to the first NUL, and what follows it. */
  function ReadCString(s: Data): (r: Option<(Data, Data)>)
    ensures r.Some? ==> NulFree(r.value.0) && s == CString(r.value.0) + r.value.1
  {
    if s == [] then None
    else if s[0] == 0 then Some(([], s[1..]))
    else match ReadCString(s[1..])
         case None => None
         case Some(p) => Some(([s[0]] + p.0, p.1))
  }

  function ReadCount(s: Data): (r: Option<(nat, Data)>)
  {
    if |s| < 2 then None else Some((FromBigEndian(s[..2]), s[2..]))
  }

  function ReadInts(s: Data, n: nat, width: nat): Option<(seq<int>, Data)> {
    if n == 0 then Some(([], s))
    else if |s| < width then None
    else match ReadInts(s[width..], n - 1, width)
         case None => None
         case Some(p) => Some(([DecodeInt(s[..width])] + p.0, p.1))
  }

  /** One value; any negative length means NULL. */
  function ReadValue(s: Data): Option<(Option<Data>, Data)> {
    if |s| < 4 then None
    else
      var plen := DecodeInt(s[..4]);
      if plen < 0 then Some((None, s[4..]))
      else if |s| < 4 + plen then None
      else Some((Some(s[4..4 + plen]), s[4 + plen..]))
  }

  function ReadValues(s: Data, n: nat): Option<(seq<Option<Data>>, Data)> {
    if n == 0 then Some(([], s))
    else match ReadValue(s)
         case None => None
         case Some(p) => match ReadValues(p.1, n - 1)
                         case None => None
                         case Some(q) => Some(([p.0] + q.0, q.1))
  }

  lemma {:induction false} CStringRead(s: Data, rest: Data)
    requires NulFree(s)
    ensures ReadCString(CString(s) + rest) == Some((s, rest))
  {
    var t := CString(s) + rest;
    if s == [] {
      assert t[1..] == rest;
    } else {
      assert s[0] in s && t[1..] == CString(s[1..]) + rest;
      CStringRead(s[1..], rest);
      assert [s[0]] + s[1..] == s;
    }
  }

  lemma CountRead(n: nat, rest: Data)
    requires n < TWO_16
    ensures ReadCount(CountField(n) + rest) == Some((n, rest))
  {
    Powers();
    DecodeEncoded(n, 2);
    assert (CountField(n) + rest)[..2] == CountField(n);
  }

  lemma {:induction false} IntsRead(xs: seq<int>, width: nat, rest: Data)
    requires forall x :: x in xs ==> Fits(x, width)
    ensures ReadInts(Ints(xs, width) + rest, |xs|, width) == Some((xs, rest))
  {
    var t := Ints(xs, width) + rest;
    if xs == [] {
      assert t == rest;
    } else {
      assert xs[0] in xs;
      IntRoundTrip(xs[0], width);
      assert t[..width] == EncodeInt(xs[0], width) && t[width..] == Ints(xs[1..], width) + rest;
      IntsRead(xs[1..], width, rest);
      assert [xs[0]] + xs[1..] == xs;
    }
  }

  lemma ValueRead(v: Option<Data>, rest: Data)
    requires v.Some? ==> FitsInt32(|v.value|)
    ensures ReadValue(ValueField(v) + rest) == Some((v, rest))
  {
    Powers();
    var t := ValueField(v) + rest;
    if v.Some? {
      var n := |v.value|;
      DecodeEncoded(n, 4);
      assert t[..4] == BigEndian(n, 4) && t[4..4 + n] == v.value && t[4 + n..] == rest;
    } else {
      assert t[..4] == [255, 255, 255, 255] && t[4..] == rest;
      AllOnes();
    }
  }

  lemma AllOnes()
    ensures FromBigEndian([255, 255, 255, 255]) == TWO_32 - 1
  {
    assert [255, 255, 255, 255][..3] == [255, 255, 255];
    assert [255, 255, 255][..2] == [255, 255];
    assert [255, 255][..1] == [255] && [255][..0] == [];
    assert FromBigEndian([255]) == 255;
    assert FromBigEndian([255, 255]) == 65535;
    assert FromBigEndian([255, 255, 255]) == 16777215;
  }

  lemma {:induction false} ValuesRead(vs: seq<Option<Data>>, rest: Data)
    requires Short(vs)
    ensures ReadValues(Values(vs) + rest, |vs|) == Some((vs, rest))
  {
    if vs == [] {
      assert Values(vs) + rest == rest;
    } else {
      assert Values(vs) + rest == ValueField(vs[0]) + (Values(vs[1..]) + rest);
      ValueRead(vs[0], Values(vs[1..]) + rest);
      ValuesRead(vs[1..], rest);
      assert [vs[0]] + vs[1..] == vs;
    }
  }

  // ---- Parse ---------------------------------------------------------------

  datatype ParseBody = ParseBody(name: Data, query: Data, oids: seq<int>)

  predicate AllInt32(xs: seq<int>) { forall x :: x in xs ==> Fits(x, 4) }
  predicate AllInt16(xs: seq<int>) { forall x :: x in xs ==> Fits(x, 2) }

  function EncodeParse(p: ParseBody): Data
    requires AllInt32(p.oids)
  {
    CString(p.name) + CString(p.query) + CountField(|p.oids|) + Ints(p.oids, 4)
  }

  function DecodeParse(s: Data): Option<ParseBody> {
    match ReadCString(s)
    case None => None
    case Some(name) => match ReadCString(name.1)
      case None => None
      case Some(query) => match ReadCount(query.1)
        case None => None
        case Some(count) => match ReadInts(count.1, count.0, 4)
          case None => None
          case Some(oids) => Some(ParseBody(name.0, query.0, oids.0))
  }

  /** Decoding inverts encoding, whatever bytes follow, for NUL-free texts and counts that
      fit their field. */
  lemma ParseRoundTrip(p: ParseBody, rest: Data)
    requires AllInt32(p.oids) && NulFree(p.name) && NulFree(p.query) && |p.oids| < TWO_16
    ensures DecodeParse(EncodeParse(p) + rest) == Some(p)
  {
    var s3 := Ints(p.oids, 4) + rest;
    var s2 := CountField(|p.oids|) + s3;
    var s1 := CString(p.query) + s2;
    assert EncodeParse(p) + rest == CString(p.name) + s1;
    CStringRead(p.name, s1);
    CStringRead(p.query, s2);
    CountRead(|p.oids|, s3);
    IntsRead(p.oids, 4, rest);
  }

  /** And for no others: what decoding returns always satisfies those conditions. */
  lemma ParseRoundTripOnlyIf(p: ParseBody, rest: Data)
    requires AllInt32(p.oids)
    ensures DecodeParse(EncodeParse(p) + rest) == Some(p) <==> NulFree(p.name) && NulFree(p.query) && |p.oids| < TWO_16
  {
    var s := EncodeParse(p) + rest;
    if DecodeParse(s) == Some(p) {
      var query := ReadCString(ReadCString(s).value.1).value;
      var count := ReadCount(query.1).value;
      IntsCounted(count.1, count.0, 4);
      Powers();
      FromBigEndianBound(query.1[..2]);
    }
    if NulFree(p.name) && NulFree(p.query) && |p.oids| < TWO_16 {
      ParseRoundTrip(p, rest);
    }
  }

  lemma {:induction false} IntsCounted(s: Data, n: nat, width: nat)
    requires ReadInts(s, n, width).Some?
    ensures |ReadInts(s, n, width).value.0| == n
  {
    if n > 0 {
      IntsCounted(s[width..], n - 1, width);
    }
  }

  // ---- Bind ----------------------------------------------------------------

  datatype BindBody = BindBody(portal: Data, stmt: Data, formats: seq<int>, values: seq<Option<Data>>,
      resultFormats: seq<int>)

  /** What the message format can carry: 16-bit codes, 32-bit lengths. */
  predicate Encodable(b: BindBody) {
    && AllInt16(b.formats) && AllInt16(b.resultFormats)
    && Short(b.values)
  }

  function EncodeLists(b: BindBody): Data
    requires Encodable(b)
  {
    CountField(|b.formats|) + Ints(b.formats, 2) + (CountField(|b.values|) + Values(b.values) + EncodeResultFormats(b))
  }

  function EncodeResultFormats(b: BindBody): Data
    requires Encodable(b)
  {
    CountField(|b.resultFormats|) + Ints(b.resultFormats, 2)
  }

  function EncodeBind(b: BindBody): Data
    requires Encodable(b)
  {
    CString(b.portal) + CString(b.stmt) + EncodeLists(b)
  }

  /** The three counted lists of a Bind body. */
  function DecodeLists(s: Data): Option<(seq<int>, seq<Option<Data>>, seq<int>)> {
    match ReadCountedInts(s)
    case None => None
    case Some(formats) => match ReadCount(formats.1)
      case None => None
      case Some(count) => match ReadValues(count.1, count.0)
        case None => None
        case Some(values) => match ReadCountedInts(values.1)
          case None => None
          case Some(resultFormats) => Some((formats.0, values.0, resultFormats.0))
  }

  function ReadCountedInts(s: Data): Option<(seq<int>, Data)> {
    match ReadCount(s) case None => None case Some(count) => ReadInts(count.1, count.0, 2)
  }

  function DecodeBind(s: Data): Option<BindBody> {
    match ReadCString(s)
    case None => None
    case Some(portal) => match ReadCString(portal.1)
      case None => None
      case Some(stmt) => match DecodeLists(stmt.1)
        case None => None
        case Some(lists) => Some(BindBody(portal.0, stmt.0, lists.0, lists.1, lists.2))
  }

  lemma CountedIntsRead(xs: seq<int>, rest: Data)
    requires AllInt16(xs) && |xs| < TWO_16
    ensures ReadCountedInts(CountField(|xs|) + Ints(xs, 2) + rest) == Some((xs, rest))
  {
    assert CountField(|xs|) + Ints(xs, 2) + rest == CountField(|xs|) + (Ints(xs, 2) + rest);
    CountRead(|xs|, Ints(xs, 2) + rest);
    IntsRead(xs, 2, rest);
  }

  /** Decoding inverts encoding; NULL stays apart from the empty value. */
  lemma BindRoundTrip(b: BindBody, rest: Data)
    requires Encodable(b) && NulFree(b.portal) && NulFree(b.stmt)
    requires |b.formats| < TWO_16 && |b.values| < TWO_16 && |b.resultFormats| < TWO_16
    ensures DecodeBind(EncodeBind(b) + rest) == Some(b)
  {
    var lists := EncodeLists(b) + rest;
    assert EncodeBind(b) + rest == CString(b.portal) + (CString(b.stmt) + lists);
    CStringRead(b.portal, CString(b.stmt) + lists);
    CStringRead(b.stmt, lists);
    ListsRead(b, rest);
  }

  /** And for no others. */
  lemma BindRoundTripOnlyIf(b: BindBody, rest: Data)
    requires Encodable(b)
    ensures DecodeBind(EncodeBind(b) + rest) == Some(b) <==>
              && NulFree(b.portal) && NulFree(b.stmt)
              && |b.formats| < TWO_16 && |b.values| < TWO_16 && |b.resultFormats| < TWO_16
  {
    var s := EncodeBind(b) + rest;
    if DecodeBind(s) == Some(b) {
      ListsCounted(ReadCString(ReadCString(s).value.1).value.1);
    }
    if NulFree(b.portal) && NulFree(b.stmt)
       && |b.formats| < TWO_16 && |b.values| < TWO_16 && |b.resultFormats| < TWO_16 {
      BindRoundTrip(b, rest);
    }
  }

  /** No list that is read has more entries than its count field can say. */
  lemma ListsCounted(s: Data)
    requires DecodeLists(s).Some?
    ensures var lists := DecodeLists(s).value;
            |lists.0| < TWO_16 && |lists.1| < TWO_16 && |lists.2| < TWO_16
  {
    CountedIntsCounted(s);
    var count := ReadCount(ReadCountedInts(s).value.1).value;
    CountFits(ReadCountedInts(s).value.1);
    ValuesCounted(count.1, count.0);
    CountedIntsCounted(ReadValues(count.1, count.0).value.1);
  }

  lemma CountFits(s: Data)
    requires ReadCount(s).Some?
    ensures ReadCount(s).value.0 < TWO_16
  {
    Powers();
    FromBigEndianBound(s[..2]);
  }

  lemma CountedIntsCounted(s: Data)
    requires ReadCountedInts(s).Some?
    ensures |ReadCountedInts(s).value.0| < TWO_16
  {
    var count := ReadCount(s).value;
    CountFits(s);
    IntsCounted(count.1, count.0, 2);
  }

  lemma {:induction false} ValuesCounted(s: Data, n: nat)
    requires ReadValues(s, n).Some?
    ensures |ReadValues(s, n).value.0| == n
    decreases n
  {
    if n > 0 {
      ValuesCounted(ReadValue(s).value.1, n - 1);
    }
  }

  lemma ListsRead(b: BindBody, rest: Data)
    requires Encodable(b)
    requires |b.formats| < TWO_16 && |b.values| < TWO_16 && |b.resultFormats| < TWO_16
    ensures DecodeLists(EncodeLists(b) + rest) == Some((b.formats, b.values, b.resultFormats))
  {
    var tail := EncodeResultFormats(b) + rest;
    var s2 := CountField(|b.values|) + (Values(b.values) + tail);
    assert EncodeLists(b) + rest == CountField(|b.formats|) + Ints(b.formats, 2) + s2;
    CountedIntsRead(b.formats, s2);
    CountRead(|b.values|, Values(b.values) + tail);
    ValuesRead(b.values, tail);
    CountedIntsRead(b.resultFormats, rest);
  }

  // ---- The decoding loops --------------------------------------------------

  /** cmd/execdb/pgproto.go: readCString, from position `start`. */
  method ScanCString(buf: Data, start: nat) returns (s: Data, next: nat, ok: bool)
    requires start <= |buf|
    ensures ok ==> next <= |buf|
    ensures match ReadCString(buf[start..]) case None => !ok case Some(p) => ok && s == p.0 && buf[next..] == p.1
  {
    for i := start to |buf|
      invariant NulFree(buf[start..i])
    {
      if buf[i] == 0 {
        assert buf[start..] == CString(buf[start..i]) + buf[i + 1..];
        CStringRead(buf[start..i], buf[i + 1..]);
        return buf[start..i], i + 1, true;
      }
    }
    assert buf[start..] == buf[start..|buf|];
    return [], 0, false;
  }

  method ScanCount(buf: Data, start: nat) returns (n: nat, next: nat, ok: bool)
    requires start <= |buf|
    ensures ok ==> next <= |buf|
    ensures match ReadCount(buf[start..]) case None => !ok case Some(p) => ok && n == p.0 && buf[next..] == p.1
  {
    if start + 2 > |buf| {
      return 0, start, false;
    }
    assert buf[start..][..2] == buf[start..start + 2] && buf[start..][2..] == buf[start + 2..];
    return FromBigEndian(buf[start..start + 2]), start + 2, true;
  }

  /** What a list reader gives once `front` has been read before it. */
  function After<T>(front: seq<T>, r: Option<(seq<T>, Data)>): Option<(seq<T>, Data)> {
    match r case None => None case Some(p) => Some((front + p.0, p.1))
  }

  /** The integer loops of parseParseMessage and parseBindMessage. */
  method ScanInts(buf: Data, start: nat, n: nat, width: nat) returns (xs: seq<int>, i: nat, ok: bool)
    requires start <= |buf|
    ensures ok ==> i <= |buf|
    ensures match ReadInts(buf[start..], n, width) case None => !ok case Some(p) => ok && xs == p.0 && buf[i..] == p.1
  {
    xs, i := [], start;
    ghost var all := ReadInts(buf[start..], n, width);
    AfterNothing(all);
    for j := 0 to n
      invariant start <= i <= |buf| && all == After(xs, ReadInts(buf[i..], n - j, width))
    {
      if i + width > |buf| {
        return [], 0, false;
      }
      var x := DecodeInt(buf[i..i + width]);
      assert buf[i..][..width] == buf[i..i + width] && buf[i..][width..] == buf[i + width..];
      AfterMore(xs, x, ReadInts(buf[i + width..], n - j - 1, width));
      xs := xs + [x];
      i := i + width;
    }
    ok := true;
  }

  lemma AfterNothing<T>(r: Option<(seq<T>, Data)>)
    ensures After([], r) == r
  {
    if r.Some? {
      assert [] + r.value.0 == r.value.0;
    }
  }

  lemma AfterMore<T>(front: seq<T>, x: T, r: Option<(seq<T>, Data)>)
    ensures After(front, After([x], r)) == After(front + [x], r)
  {
    if r.Some? {
      assert front + ([x] + r.value.0) == front + [x] + r.value.0;
    }
  }

  /** The value loop of parseBindMessage. */
  method ScanValues(buf: Data, start: nat, n: nat) returns (vs: seq<Option<Data>>, i: nat, ok: bool)
    requires start <= |buf|
    ensures ok ==> i <= |buf|
    ensures match ReadValues(buf[start..], n) case None => !ok case Some(p) => ok && vs == p.0 && buf[i..] == p.1
  {
    vs, i := [], start;
    ghost var all := ReadValues(buf[start..], n);
    AfterNothing(all);
    for j := 0 to n
      invariant start <= i <= |buf| && all == After(vs, ReadValues(buf[i..], n - j))
    {
      var v, next, read := ScanValue(buf, i);
      if !read {
        return [], 0, false;
      }
      AfterMore(vs, v, ReadValues(buf[next..], n - j - 1));
      vs := vs + [v];
      i := next;
    }
    ok := true;
  }

  method ScanValue(buf: Data, i: nat) returns (v: Option<Data>, next: nat, ok: bool)
    requires i <= |buf|
    ensures ok ==> i <= next <= |buf|
    ensures match ReadValue(buf[i..]) case None => !ok case Some(p) => ok && v == p.0 && buf[next..] == p.1
  {
    if i + 4 > |buf| {
      return None, 0, false;
    }
    var plen := DecodeInt(buf[i..i + 4]);
    assert buf[i..][..4] == buf[i..i + 4];
    if plen < 0 {
      return None, i + 4, true;
    }
    if i + 4 + plen > |buf| {
      return None, 0, false;
    }
    assert buf[i..][4..4 + plen] == buf[i + 4..i + 4 + plen] && buf[i..][4 + plen..] == buf[i + 4 + plen..];
    return Some(buf[i + 4..i + 4 + plen]), i + 4 + plen, true;
  }

  /** cmd/execdb/pgextended.go: parseParseMessage. */
  method ParseParseMessage(body: Data) returns (p: Option<ParseBody>)
    ensures p == DecodeParse(body)
  {
    assert body[0..] == body;
    var name, i, ok := ScanCString(body, 0);
    if !ok { return None; }
    var query;
    query, i, ok := ScanCString(body, i);
    if !ok { return None; }
    var n;
    n, i, ok := ScanCount(body, i);
    if !ok { return None; }
    var oids;
    oids, i, ok := ScanInts(body, i, n, 4);
    if !ok { return None; }
    return Some(ParseBody(name, query, oids));
  }

  /** cmd/execdb/pgextended.go: parseBindMessage. */
  method ParseBindMessage(body: Data) returns (b: Option<BindBody>)
    ensures b == DecodeBind(body)
  {
    assert body[0..] == body;
    var portal, i, ok := ScanCString(body, 0);
    if !ok { return None; }
    var stmt;
    stmt, i, ok := ScanCString(body, i);
    if !ok { return None; }
    var n, formats;
    n, i, ok := ScanCount(body, i);
    if !ok { return None; }
    formats, i, ok := ScanInts(body, i, n, 2);
    if !ok { return None; }
    var values;
    n, i, ok := ScanCount(body, i);
    if !ok { return None; }
    values, i, ok := ScanValues(body, i, n);
    if !ok { return None; }
    var resultFormats;
    n, i, ok := ScanCount(body, i);
    if !ok { return None; }
    resultFormats, i, ok := ScanInts(body, i, n, 2);
    if !ok { return None; }
    return Some(BindBody(portal, stmt, formats, values, resultFormats));
  }

  // ---- DataRow -------------------------------------------------------------

  const DATA_ROW: Byte := 68

  function RowBody(values: seq<Option<Data>>): Data
    requires Short(values)
  {
    CountField(|values|) + Values(values)
  }

  /** The row a client makes of the bytes of one message: count, then that many values, and
      nothing left over. */
  function ReadDataRow(s: Data): Option<seq<Option<Data>>> {
    match ReadFrame(s)
    case None => None
    case Some(f) =>
      if f.0.typ != DATA_ROW || f.1 != [] then None
      else match ReadCount(f.0.body)
           case None => None
           case Some(count) => match ReadValues(count.1, count.0)
             case None => None
             case Some(values) => if values.1 == [] then Some(values.0) else None
  }

  /** cmd/execdb/pgproto.go: writeDataRow.  The client gets the row back, as long as the count
      and the length fit their fields. */
  method WriteDataRow(values: seq<Option<Data>>) returns (out: Data)
    requires Short(values)
    ensures out == Frame(Message(DATA_ROW, RowBody(values)))
    ensures |values| < TWO_16 && |RowBody(values)| + 4 < TWO_31 ==> ReadDataRow(out) == Some(values)
  {
    var b := new MsgBuilder();
    b.AddCount(|values|);
    b.AddValues(values);
    assert b.buf == RowBody(values);
    out := WriteMessage(DATA_ROW, b.buf);
    if |values| < TWO_16 {
      CountRead(|values|, Values(values));
      ValuesRead(values, []);
      assert Values(values) + [] == Values(values);
    }
  }
}
