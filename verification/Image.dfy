/** The image format: engine bytes, data blob, 32-byte footer (engine/footer.go,
    engine/persist.go). */
module Image {
  import opened Bytes
  import opened Options
  import opened PgTypes

  /** "EXECDB01". */
  const MAGIC: Data := [69, 88, 69, 67, 68, 66, 48, 49]
  const FOOTER_SIZE := 32
  const FORMAT_VERSION := 1
  const MAX_DATA_SIZE := 0x4000_0000

  /** Magic, version, data offset, data length, four reserved bytes. */
  function EncodeFooter(dataOffset: int, dataLength: int): (s: Data)
    requires IsInt64(dataOffset) && IsInt64(dataLength)
    ensures |s| == FOOTER_SIZE
  {
    Int64Fits(dataOffset);
    Int64Fits(dataLength);
    MAGIC + BigEndian(FORMAT_VERSION, 4) + EncodeInt(dataOffset, 8) + EncodeInt(dataLength, 8) + [0, 0, 0, 0]
  }

  /** Copies `bytes` into `a` at `at`. */
  method PutBytes(a: array<Byte>, at: nat, bytes: Data)
    requires at + |bytes| <= a.Length
    modifies a
    ensures a[..] == old(a[..at]) + bytes + old(a[at + |bytes|..])
  {
    for i := 0 to |bytes|
      invariant a[..] == old(a[..at]) + bytes[..i] + old(a[at + i..])
    {
      a[at + i] := bytes[i];
    }
  }

  /** engine/footer.go: encodeFooter, filling a buffer in place. */
  method WriteFooter(dataOffset: int, dataLength: int) returns (footer: array<Byte>)
    requires IsInt64(dataOffset) && IsInt64(dataLength)
    ensures fresh(footer) && footer[..] == EncodeFooter(dataOffset, dataLength)
  {
    Int64Fits(dataOffset);
    Int64Fits(dataLength);
    footer := new Byte[32](_ => 0);
    assert footer[..] == [] + Zeros(32);
    var version, offset, length := BigEndian(FORMAT_VERSION, 4), EncodeInt(dataOffset, 8), EncodeInt(dataLength, 8);
    PutBehind(footer, 0, MAGIC, []);
    PutBehind(footer, 8, version, [] + MAGIC);
    PutBehind(footer, 12, offset, [] + MAGIC + version);
    PutBehind(footer, 20, length, [] + MAGIC + version + offset);
    assert [] + MAGIC == MAGIC && Zeros(4) == [0, 0, 0, 0];
  }

  /** The same where what is in front has been put, and zeros follow. */
  method PutBehind(a: array<Byte>, at: nat, bytes: Data, ghost front: Data)
    requires at == |front| && at + |bytes| <= a.Length && a[..] == front + Zeros(a.Length - at)
    modifies a
    ensures a[..] == front + bytes + Zeros(a.Length - at - |bytes|)
  {
    ghost var was := a[..];
    assert a[..at] == was[..at] && a[at + |bytes|..] == was[at + |bytes|..];
    PutAfter(front, bytes, a.Length - at);
    PutBytes(a, at, bytes);
  }

  function Zeros(n: nat): (s: Data)
    ensures |s| == n
  {
    seq(n, _ => 0)
  }

  /** What is put behind `front` takes the place of the first of `n` zeros. */
  lemma PutAfter(front: Data, bytes: Data, n: nat)
    requires |bytes| <= n
    ensures var s := front + Zeros(n);
            s[..|front|] + bytes + s[|front| + |bytes|..] == front + bytes + Zeros(n - |bytes|)
  {
    var s := front + Zeros(n);
    assert s[..|front|] == front && s[|front| + |bytes|..] == Zeros(n - |bytes|);
  }

  /** What a footer says about a file: nothing, nonsense, or where the data is. */
  datatype Info = NoData | Corrupt | HasData(version: nat, dataOffset: int, dataLength: int)

  /** engine/footer.go: decodeFooter; int64 sums wrap. */
  function DecodeFooter(footer: Data, size: int): Info
    requires size >= FOOTER_SIZE ==> |footer| == FOOTER_SIZE
  {
    if size < FOOTER_SIZE || footer[0..8] != MAGIC then NoData
    else
      var dataOffset, dataLength := DecodeInt(footer[12..20]), DecodeInt(footer[20..28]);
      if dataOffset < 0 || dataLength < 0 || dataLength > MAX_DATA_SIZE
         || Wrap64(Wrap64(dataOffset + dataLength) + FOOTER_SIZE) != size then Corrupt
      else HasData(FromBigEndian(footer[8..12]), dataOffset, dataLength)
  }

  /** Despite the wrapping, a footer is accepted exactly when its fields are in range and
      offset, length and footer add up, as unbounded numbers, to the size of the file. */
  lemma FooterIsSound(footer: Data, size: int)
    requires 0 <= size <= MAX_INT64 && (size >= FOOTER_SIZE ==> |footer| == FOOTER_SIZE)
    ensures DecodeFooter(footer, size).HasData? <==>
              size >= FOOTER_SIZE && footer[0..8] == MAGIC &&
              (var o, l := DecodeInt(footer[12..20]), DecodeInt(footer[20..28]);
               0 <= o && 0 <= l <= MAX_DATA_SIZE && o + l + FOOTER_SIZE == size)
    ensures DecodeFooter(footer, size).HasData? ==>
              var i := DecodeFooter(footer, size);
              i.dataOffset >= 0 && i.dataLength >= 0 && i.dataOffset + i.dataLength + FOOTER_SIZE == size
  {
    if size >= FOOTER_SIZE {
      var o, l := DecodeInt(footer[12..20]), DecodeInt(footer[20..28]);
      DecodedFits(footer[12..20]);
      Int64Fits(o);
      if o >= 0 && 0 <= l <= MAX_DATA_SIZE {
        SumsAgree(o, l, size);
      }
    }
  }

  lemma SumsAgree(o: int, l: int, size: int)
    requires 0 <= o <= MAX_INT64 && 0 <= l <= MAX_DATA_SIZE && 0 <= size <= MAX_INT64
    ensures Wrap64(Wrap64(o + l) + FOOTER_SIZE) == size <==> o + l + FOOTER_SIZE == size
  {
  }

  /** The fields of a footer: "EXECDB01", version 1, offset, length, four zeros. */
  lemma FooterFields(dataOffset: int, dataLength: int)
    requires IsInt64(dataOffset) && IsInt64(dataLength)
    ensures var f := EncodeFooter(dataOffset, dataLength);
            && f[0..12] == [69, 88, 69, 67, 68, 66, 48, 49, 0, 0, 0, 1] && f[28..32] == [0, 0, 0, 0]
            && f[0..8] == MAGIC && FromBigEndian(f[8..12]) == FORMAT_VERSION
            && DecodeInt(f[12..20]) == dataOffset && DecodeInt(f[20..28]) == dataLength
  {
    Int64Fits(dataOffset);
    Int64Fits(dataLength);
    Powers();
    var offset, length := EncodeInt(dataOffset, 8), EncodeInt(dataLength, 8);
    FiveParts(MAGIC, BigEndian(FORMAT_VERSION, 4), offset, length, [0, 0, 0, 0]);
    VersionBytes();
    DecodeEncoded(FORMAT_VERSION, 4);
    IntRoundTrip(dataOffset, 8);
    IntRoundTrip(dataLength, 8);
  }

  lemma FiveParts(magic: Data, version: Data, offset: Data, length: Data, rest: Data)
    requires |magic| == |offset| == |length| == 8 && |version| == |rest| == 4
    ensures var f := magic + version + offset + length + rest;
            && f[0..8] == magic && f[8..12] == version && f[0..12] == magic + version
            && f[12..20] == offset && f[20..28] == length && f[28..32] == rest
  {
  }

  lemma VersionBytes()
    ensures BigEndian(1, 4) == [0, 0, 0, 1]
  {
    assert BigEndian(0, 2) == [0, 0] && BigEndian(0, 3) == [0, 0, 0];
  }

  /** Decoding recovers what was encoded if and only if the lengths are those of a file of
      that size and the data is no larger than 1 GiB. */
  lemma FooterRoundTrip(dataOffset: int, dataLength: int, size: int)
    requires IsInt64(dataOffset) && IsInt64(dataLength) && 0 <= size <= MAX_INT64
    ensures DecodeFooter(EncodeFooter(dataOffset, dataLength), size) == HasData(FORMAT_VERSION, dataOffset, dataLength)
            <==> dataOffset >= 0 && 0 <= dataLength <= 0x4000_0000 && dataOffset + dataLength + 32 == size
  {
    FooterFields(dataOffset, dataLength);
    FooterIsSound(EncodeFooter(dataOffset, dataLength), size);
  }

  // ---- Whole images --------------------------------------------------------

  /** engine/persist.go: what writeImage writes. */
  function ImageOf(engine: Data, data: Data): Data
    requires |engine| + |data| + FOOTER_SIZE <= MAX_INT64
  {
    engine + data + EncodeFooter(|engine|, |data|)
  }

  /** engine/footer.go: Inspect, on a file's contents. */
  function Inspect(file: Data): Info {
    DecodeFooter(if |file| >= FOOTER_SIZE then file[|file| - FOOTER_SIZE..] else [], |file|)
  }

  /** The size of the engine part: up to the data, or everything where there is none. */
  function EngineSize(file: Data): (size: nat)
    requires |file| <= MAX_INT64
    ensures size <= |file|
  {
    match Inspect(file)
    case HasData(_, dataOffset, _) =>
      FooterIsSound(file[|file| - FOOTER_SIZE..], |file|);
      dataOffset
    case _ => |file|
  }

  datatype Loaded = Loaded(blob: Data) | Nothing | Bad

  /** engine/persist.go: the blob LoadFrom takes out of an image; the slice is in range. */
  function BlobOf(file: Data): Loaded
    requires |file| <= MAX_INT64
  {
    match Inspect(file)
    case NoData => Nothing
    case Corrupt => Bad
    case HasData(_, dataOffset, dataLength) =>
      FooterIsSound(file[|file| - FOOTER_SIZE..], |file|);
      Loaded(file[dataOffset..dataOffset + dataLength])
  }

  /** An image gives back its data and its engine size if and only if the data is no larger
      than 1 GiB, whatever the engine bytes are: images of images do not nest. */
  lemma ImageRoundTrip(engine: Data, data: Data)
    requires |engine| + |data| + FOOTER_SIZE <= MAX_INT64
    ensures var file := ImageOf(engine, data);
            if |data| <= MAX_DATA_SIZE
            then Inspect(file) == HasData(FORMAT_VERSION, |engine|, |data|) && BlobOf(file) == Loaded(data)
                 && EngineSize(file) == |engine| && file[..EngineSize(file)] == engine
            else Inspect(file) == Corrupt && BlobOf(file) == Bad
  {
    var file := ImageOf(engine, data);
    assert file[|file| - FOOTER_SIZE..] == EncodeFooter(|engine|, |data|);
    FooterFields(|engine|, |data|);
    FooterRoundTrip(|engine|, |data|, |file|);
    assert file[|engine|..|engine| + |data|] == data && file[..|engine|] == engine;
  }

  /** engine/persist.go: LoadFrom, up to handing the blob to SQLite. */
  method LoadFrom(buf: Data) returns (r: Loaded)
    requires |buf| <= MAX_INT64
    ensures r == BlobOf(buf)
  {
    var size := |buf|;
    var footer := [];
    if size >= FOOTER_SIZE {
      footer := buf[size - FOOTER_SIZE..];
    }
    var info := DecodeFooter(footer, size);
    match info {
      case Corrupt => return Bad;
      case NoData => return Nothing;
      case HasData(_, dataOffset, dataLength) =>
        FooterIsSound(footer, size);
        return Loaded(buf[dataOffset..dataOffset + dataLength]);
    }
  }
}
