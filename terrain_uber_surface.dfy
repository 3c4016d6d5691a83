/**
 * The terrain uber-surface (SceneEngine/TerrainUberSurface.cpp): a file made of a
 * small header and a row-major 2D array of samples, opened as one mapped byte range;
 * the empty-file writer; and the interface that keeps a rectangle of the surface in
 * a GPU cache, writes it back, and notifies the registered terrain cells that an edit
 * touches.
 *
 * The header structure is declared outside this model; it is taken to be eight
 * little-endian unsigned 32-bit words (magic, width, height, type category, array
 * count and three zero words), and the magic value is a parameter. The size of a
 * sample type is a function parameter too. GPU textures, file writing and the
 * cells' callbacks are external: the GPU cache contents come back as a readback
 * parameter, and the cells written or notified are returned as their indices.
 */
module TerrainUberSurface {
  import opened Wrappers

  newtype byte = x: int | 0 <= x < 256

  const Word: nat := 0x1_0000_0000
  type U32 = x: nat | x < 0x1_0000_0000
  type U16 = x: nat | x < 0x1_0000

  const HeaderSize: nat := 32

  datatype UInt2 = UInt2(x: nat, y: nat)

  /** ImpliedTyping::TypeDesc: a type category and an array count. */
  datatype TypeDesc = TypeDesc(typeCat: U32, arrayCount: U16)

  /** The size in bytes of one sample of a type; the type table is outside this model. */
  type SizeOf = TypeDesc -> U32

  datatype Header = Header(magic: U32, width: U32, height: U32, typeCat: U32, typeArrayCount: U32)

  datatype OpenError = BadMagic | FileTooSmall

  /** What the constructor keeps of a file it accepts. */
  datatype SurfaceDesc = SurfaceDesc(width: nat, height: nat, format: TypeDesc, sampleBytes: nat)

  // ---------------------------------------------------------------------------
  // The header's byte layout

  function EncodeWord(v: U32): (r: seq<byte>)
    ensures |r| == 4
  {
    [(v % 256) as byte, (v / 0x100 % 256) as byte, (v / 0x1_0000 % 256) as byte, (v / 0x100_0000) as byte]
  }

  function DecodeWord(s: seq<byte>, at: nat): (r: U32)
    requires at + 4 <= |s|
  {
    s[at] as nat + 0x100 * s[at + 1] as nat + 0x1_0000 * s[at + 2] as nat + 0x100_0000 * s[at + 3] as nat
  }

  lemma DecodeEncodeWord(v: U32, s: seq<byte>, at: nat)
    requires at + 4 <= |s| && s[at..at + 4] == EncodeWord(v)
    ensures DecodeWord(s, at) == v
  {
    assert s[at] == EncodeWord(v)[0] && s[at + 1] == EncodeWord(v)[1];
    assert s[at + 2] == EncodeWord(v)[2] && s[at + 3] == EncodeWord(v)[3];
    WordDigits(v);
  }

  /** A word is the sum of its four little-endian bytes. */
  lemma WordDigits(v: U32)
    ensures v == v % 0x100 + 0x100 * (v / 0x100 % 0x100) + 0x1_0000 * (v / 0x1_0000 % 0x100) + 0x100_0000 * (v / 0x100_0000)
  {
    var q1 := v / 0x100;
    var q2 := q1 / 0x100;
    var q3 := q2 / 0x100;
    assert v == v % 0x100 + 0x100 * q1;
    assert q1 == q1 % 0x100 + 0x100 * q2;
    assert q2 == q2 % 0x100 + 0x100 * q3;
    assert v == (v % 0x100 + 0x100 * (q1 % 0x100)) + 0x1_0000 * q2;
    assert v / 0x1_0000 == q2;
    assert v == (v % 0x100 + 0x100 * (q1 % 0x100) + 0x1_0000 * (q2 % 0x100)) + 0x100_0000 * q3;
    assert v / 0x100_0000 == q3;
  }

  function EncodeHeader(h: Header): (r: seq<byte>)
    ensures |r| == HeaderSize
  {
    EncodeWord(h.magic) + EncodeWord(h.width) + EncodeWord(h.height)
      + EncodeWord(h.typeCat) + EncodeWord(h.typeArrayCount)
      + EncodeWord(0) + EncodeWord(0) + EncodeWord(0)
  }

  function DecodeHeader(file: seq<byte>): Header
    requires HeaderSize <= |file|
  {
    Header(DecodeWord(file, 0), DecodeWord(file, 4), DecodeWord(file, 8), DecodeWord(file, 12), DecodeWord(file, 16))
  }

  /** Reading back the header of a file that starts with an encoded header gives that header. */
  lemma DecodeEncodeHeader(h: Header, file: seq<byte>)
    requires HeaderSize <= |file| && file[..HeaderSize] == EncodeHeader(h)
    ensures DecodeHeader(file) == h
  {
    var e := EncodeHeader(h);
    assert file[0..4] == e[0..4] == EncodeWord(h.magic);
    assert file[4..8] == e[4..8] == EncodeWord(h.width);
    assert file[8..12] == e[8..12] == EncodeWord(h.height);
    assert file[12..16] == e[12..16] == EncodeWord(h.typeCat);
    assert file[16..20] == e[16..20] == EncodeWord(h.typeArrayCount);
    DecodeEncodeWord(h.magic, file, 0);
    DecodeEncodeWord(h.width, file, 4);
    DecodeEncodeWord(h.height, file, 8);
    DecodeEncodeWord(h.typeCat, file, 12);
    DecodeEncodeWord(h.typeArrayCount, file, 16);
  }

  // ---------------------------------------------------------------------------
  // Opening a file

  /** The number of data bytes a width x height surface of the given sample size needs. */
  function DataSize(width: nat, height: nat, sampleBytes: nat): nat
  {
    width * height * sampleBytes
  }

  /** The sample type named by a header; the array count is narrowed to 16 bits. */
  function HeaderFormat(h: Header): TypeDesc
  {
    TypeDesc(h.typeCat, h.typeArrayCount % 0x1_0000)
  }

  function RequiredDataSize(h: Header, sizeOf: SizeOf): nat
  {
    DataSize(h.width, h.height, sizeOf(HeaderFormat(h)))
  }

  /** The constructor's checks as written: the size product is computed in 32-bit unsigned
    * arithmetic, so it is taken modulo 2^32 before the comparison. */
  function OpenAsWritten(file: seq<byte>, magic: U32, sizeOf: SizeOf): (r: Result<SurfaceDesc, OpenError>)
    requires HeaderSize <= |file|
    ensures r.Err? && r.error == BadMagic <==> DecodeHeader(file).magic != magic
    ensures r.Ok? ==> |file| >= HeaderSize + DataSize(r.value.width, r.value.height, r.value.sampleBytes) % Word
  {
    var h := DecodeHeader(file);
    if h.magic != magic then Err(BadMagic)
    else
      var format := HeaderFormat(h);
      var sampleBytes := sizeOf(format);
      if |file| < HeaderSize + DataSize(h.width, h.height, sampleBytes) % Word then Err(FileTooSmall)
      else Ok(SurfaceDesc(h.width, h.height, format, sampleBytes))
  }

  /** The constructor's checks as intended: a file is accepted when its magic matches and
    * it holds every sample the header announces. */
  function Open(file: seq<byte>, magic: U32, sizeOf: SizeOf): (r: Result<SurfaceDesc, OpenError>)
    requires HeaderSize <= |file|
    ensures r.Err? && r.error == BadMagic <==> DecodeHeader(file).magic != magic
    ensures r.Ok? <==> (DecodeHeader(file).magic == magic && |file| >= HeaderSize + RequiredDataSize(DecodeHeader(file), sizeOf))
    ensures r.Ok? ==> (r.value.width == DecodeHeader(file).width && r.value.height == DecodeHeader(file).height
      && r.value.format == HeaderFormat(DecodeHeader(file)) && r.value.sampleBytes == sizeOf(r.value.format)
      && |file| >= HeaderSize + DataSize(r.value.width, r.value.height, r.value.sampleBytes))
  {
    var h := DecodeHeader(file);
    if h.magic != magic then Err(BadMagic)
    else
      var format := HeaderFormat(h);
      var sampleBytes := sizeOf(format);
      if |file| < HeaderSize + DataSize(h.width, h.height, sampleBytes) then Err(FileTooSmall)
      else Ok(SurfaceDesc(h.width, h.height, format, sampleBytes))
  }

  /** A 65536 x 65536 surface of one-byte samples needs 2^32 data bytes; the 32-bit product
    * is 0, so the check as written accepts a file holding the header alone. */
  lemma OpenAsWrittenAcceptsTruncatedFile(magic: U32, sizeOf: SizeOf)
    requires sizeOf(TypeDesc(0, 1)) == 1
    ensures var file := EncodeHeader(Header(magic, 0x1_0000, 0x1_0000, 0, 1));
      && OpenAsWritten(file, magic, sizeOf).Ok?
      && Open(file, magic, sizeOf) == Err(FileTooSmall)
  {
    var file := EncodeHeader(Header(magic, 0x1_0000, 0x1_0000, 0, 1));
    assert file[..HeaderSize] == file;
    DecodeEncodeHeader(Header(magic, 0x1_0000, 0x1_0000, 0, 1), file);
    assert DataSize(0x1_0000, 0x1_0000, 1) == Word;
  }

  // ---------------------------------------------------------------------------
  // Sample addressing

  /** The byte offset, from the start of the data, of sample (x, y). */
  function SampleOffset(width: nat, sampleBytes: nat, x: nat, y: nat): nat
  {
    y * (width * sampleBytes) + x * sampleBytes
  }

  lemma MulMonotone(a: nat, b: nat, c: nat)
    requires a <= b
    ensures a * c <= b * c
  {
  }

  /** A sample inside the surface lies inside its data bytes, within its own row. */
  lemma SampleInside(width: nat, height: nat, sampleBytes: nat, x: nat, y: nat)
    requires x < width && y < height
    ensures y * (width * sampleBytes) <= SampleOffset(width, sampleBytes, x, y)
    ensures SampleOffset(width, sampleBytes, x, y) + sampleBytes <= (y + 1) * (width * sampleBytes)
    ensures SampleOffset(width, sampleBytes, x, y) + sampleBytes <= DataSize(width, height, sampleBytes)
  {
    var stride := width * sampleBytes;
    MulMonotone(x + 1, width, sampleBytes);
    MulMonotone(y + 1, height, stride);
    assert (y + 1) * stride == y * stride + stride;
    assert DataSize(width, height, sampleBytes) == height * stride;
  }

  /** Distinct samples occupy disjoint bytes. */
  lemma SamplesDisjoint(width: nat, sampleBytes: nat, x: nat, y: nat, x': nat, y': nat)
    requires x < width && x' < width && (x, y) != (x', y')
    ensures SampleOffset(width, sampleBytes, x, y) + sampleBytes <= SampleOffset(width, sampleBytes, x', y')
      || SampleOffset(width, sampleBytes, x', y') + sampleBytes <= SampleOffset(width, sampleBytes, x, y)
  {
    var stride := width * sampleBytes;
    SampleInside(width, y + 1, sampleBytes, x, y);
    SampleInside(width, y' + 1, sampleBytes, x', y');
    if y < y' {
      MulMonotone(y + 1, y', stride);
    } else if y' < y {
      MulMonotone(y' + 1, y, stride);
    } else if x < x' {
      MulMonotone(x + 1, x', sampleBytes);
    } else {
      MulMonotone(x' + 1, x, sampleBytes);
    }
  }

  // ---------------------------------------------------------------------------
  // The empty-file writer

  function Zeros(n: nat): (r: seq<byte>)
    ensures |r| == n && forall i :: 0 <= i < n ==> r[i] == 0
  {
    seq(n, _ => 0 as byte)
  }

  /** The length of one row of samples, computed in 32-bit unsigned arithmetic. */
  function LineSize(width: U32, sampleType: TypeDesc, sizeOf: SizeOf): nat
  {
    (width * sizeOf(sampleType)) % Word
  }

  function EmptyFileHeader(width: U32, height: U32, sampleType: TypeDesc, magic: U32): Header
  {
    Header(magic, width, height, sampleType.typeCat, sampleType.arrayCount)
  }

  /** The header followed by `height` zeroed rows. */
  function EmptyFile(width: U32, height: U32, sampleType: TypeDesc, magic: U32, sizeOf: SizeOf): seq<byte>
  {
    EncodeHeader(EmptyFileHeader(width, height, sampleType, magic)) + Zeros(height * LineSize(width, sampleType, sizeOf))
  }

  /** BuildEmptyFile: writes the header, then one zeroed line of samples per row. */
  method BuildEmptyFile(width: U32, height: U32, sampleType: TypeDesc, magic: U32, sizeOf: SizeOf) returns (file: seq<byte>)
    ensures file == EmptyFile(width, height, sampleType, magic, sizeOf)
  {
    file := EncodeHeader(EmptyFileHeader(width, height, sampleType, magic));
    var lineSize := (width * sizeOf(sampleType)) % Word;
    var lineOfSamples := Zeros(lineSize);
    var y := 0;
    while y < height
      invariant 0 <= y <= height
      invariant file == EncodeHeader(EmptyFileHeader(width, height, sampleType, magic)) + Zeros(y * lineSize)
    {
      assert (y + 1) * lineSize == y * lineSize + lineSize;
      assert Zeros(y * lineSize) + lineOfSamples == Zeros((y + 1) * lineSize);
      file := file + lineOfSamples;
      y := y + 1;
    }
  }

  /** When a row's size fits in 32 bits, the empty file passes the constructor's checks,
    * reads back the size and type it was built with, holds exactly the samples it
    * announces, and every sample is zero. */
  lemma EmptyFileOpens(width: U32, height: U32, sampleType: TypeDesc, magic: U32, sizeOf: SizeOf)
    requires width * sizeOf(sampleType) < Word
    ensures var file := EmptyFile(width, height, sampleType, magic, sizeOf);
      && Open(file, magic, sizeOf) == Ok(SurfaceDesc(width, height, sampleType, sizeOf(sampleType)))
      && |file| == HeaderSize + DataSize(width, height, sizeOf(sampleType))
      && forall i :: HeaderSize <= i < |file| ==> file[i] == 0
  {
    var file := EmptyFile(width, height, sampleType, magic, sizeOf);
    EmptyFileHeaderReadsBack(width, height, sampleType, magic, sizeOf);
    EmptyFileDataSize(width, height, sizeOf(sampleType));
    assert |file| == HeaderSize + DataSize(width, height, sizeOf(sampleType));
  }

  lemma EmptyFileHeaderReadsBack(width: U32, height: U32, sampleType: TypeDesc, magic: U32, sizeOf: SizeOf)
    ensures var file := EmptyFile(width, height, sampleType, magic, sizeOf);
      && HeaderSize <= |file|
      && DecodeHeader(file) == EmptyFileHeader(width, height, sampleType, magic)
      && HeaderFormat(DecodeHeader(file)) == sampleType
  {
    var h := EmptyFileHeader(width, height, sampleType, magic);
    var file := EmptyFile(width, height, sampleType, magic, sizeOf);
    assert file[..HeaderSize] == EncodeHeader(h);
    DecodeEncodeHeader(h, file);
  }

  lemma EmptyFileDataSize(width: nat, height: nat, sampleBytes: nat)
    requires width * sampleBytes < Word
    ensures height * ((width * sampleBytes) % Word) == DataSize(width, height, sampleBytes)
  {
    assert (width * sampleBytes) % Word == width * sampleBytes;
    assert height * (width * sampleBytes) == width * height * sampleBytes;
  }

  // ---------------------------------------------------------------------------
  // The opened surface

  /** The dimensions of an opened surface. */
  datatype Geometry = Geometry(width: nat, height: nat, sampleBytes: nat)

  /** TerrainUberSurfaceGeneric: the file's data bytes, mapped for reading and writing. */
  class UberSurface {
    const width: nat
    const height: nat
    const format: TypeDesc
    const sampleBytes: nat
    const data: array<byte>

    predicate Valid()
    {
      DataSize(width, height, sampleBytes) <= data.Length
    }

    function Geom(): Geometry
    {
      Geometry(width, height, sampleBytes)
    }

    /** The constructor of an accepted file; a rejected file throws InvalidAsset, which
      * is the error side of Open. */
    constructor (file: seq<byte>, magic: U32, sizeOf: SizeOf)
      requires HeaderSize <= |file| && Open(file, magic, sizeOf).Ok?
      ensures SurfaceDesc(width, height, format, sampleBytes) == Open(file, magic, sizeOf).value
      ensures data[..] == file[HeaderSize..]
      ensures fresh(data) && Valid()
    {
      var desc := Open(file, magic, sizeOf).value;
      width := desc.width;
      height := desc.height;
      format := desc.format;
      sampleBytes := desc.sampleBytes;
      data := new byte[|file| - HeaderSize](i requires 0 <= i < |file| - HeaderSize => file[HeaderSize + i]);
    }

    /** The offset of a sample's bytes, or nothing outside the surface. */
    function GetData(coord: UInt2): (r: Option<nat>)
      ensures r.Some? <==> coord.x < width && coord.y < height
      ensures r.Some? ==> (r.value == SampleOffset(width, sampleBytes, coord.x, coord.y)
        && r.value + sampleBytes <= DataSize(width, height, sampleBytes))
    {
      if coord.x >= width || coord.y >= height then None
      else
        SampleInside(width, height, sampleBytes, coord.x, coord.y);
        Some(SampleOffset(width, sampleBytes, coord.x, coord.y))
    }

    /** The distance in bytes between two rows. */
    function GetStride(): (r: nat)
      ensures forall x: nat, y: nat :: x < width ==>
        SampleOffset(width, sampleBytes, x, y + 1) == SampleOffset(width, sampleBytes, x, y) + r
    {
      width * sampleBytes
    }
  }

  // ---------------------------------------------------------------------------
  // Writing the GPU cache back

  /** A cache rectangle: inclusive corners, inside the surface. */
  predicate CacheRect(g: Geometry, mins: UInt2, maxs: UInt2)
  {
    mins.x <= maxs.x < g.width && mins.y <= maxs.y < g.height
  }

  /** The bytes of one row of the cache rectangle. */
  function RowBytes(g: Geometry, mins: UInt2, maxs: UInt2): nat
    requires mins.x <= maxs.x
  {
    (maxs.x - mins.x + 1) * g.sampleBytes
  }

  function RowCount(mins: UInt2, maxs: UInt2): nat
    requires mins.y <= maxs.y
  {
    maxs.y - mins.y + 1
  }

  /** Where row y of the cache rectangle starts in the surface's data. */
  function RowStart(g: Geometry, mins: UInt2, y: nat): nat
  {
    SampleOffset(g.width, g.sampleBytes, mins.x, mins.y + y)
  }

  /** The readback holds one row per row of the cache rectangle, each at least as long as
    * a row of the rectangle; its row pitch is left implicit. */
  predicate ReadbackCovers(readback: seq<seq<byte>>, g: Geometry, mins: UInt2, maxs: UInt2)
    requires CacheRect(g, mins, maxs)
  {
    RowCount(mins, maxs) <= |readback|
      && forall y :: 0 <= y < |readback| ==> RowBytes(g, mins, maxs) <= |readback[y]|
  }

  /** Row y of the cache rectangle lies inside the data and ends before the next row of
    * the surface begins. */
  lemma RowInside(g: Geometry, mins: UInt2, maxs: UInt2, y: nat)
    requires CacheRect(g, mins, maxs) && y < RowCount(mins, maxs)
    ensures RowStart(g, mins, y) + RowBytes(g, mins, maxs) == SampleOffset(g.width, g.sampleBytes, maxs.x, mins.y + y) + g.sampleBytes
    ensures RowStart(g, mins, y) + RowBytes(g, mins, maxs) <= (mins.y + y + 1) * (g.width * g.sampleBytes)
    ensures RowStart(g, mins, y) + RowBytes(g, mins, maxs) <= DataSize(g.width, g.height, g.sampleBytes)
  {
    assert mins.x * g.sampleBytes + (maxs.x - mins.x + 1) * g.sampleBytes == maxs.x * g.sampleBytes + g.sampleBytes;
    SampleInside(g.width, g.height, g.sampleBytes, maxs.x, mins.y + y);
  }

  /** Later rows of the cache rectangle start after earlier rows end. */
  lemma RowsDisjoint(g: Geometry, mins: UInt2, maxs: UInt2, y: nat, y': nat)
    requires CacheRect(g, mins, maxs) && y < y' < RowCount(mins, maxs)
    ensures RowStart(g, mins, y) + RowBytes(g, mins, maxs) <= RowStart(g, mins, y')
  {
    RowInside(g, mins, maxs, y);
    SampleInside(g.width, g.height, g.sampleBytes, mins.x, mins.y + y');
    MulMonotone(mins.y + y + 1, mins.y + y', g.width * g.sampleBytes);
  }

  /** `d` with `s` copied over it at `at`. */
  function Splice(d: seq<byte>, at: nat, s: seq<byte>): (r: seq<byte>)
    requires at + |s| <= |d|
    ensures |r| == |d|
    ensures forall i :: 0 <= i < |d| ==> r[i] == (if at <= i < at + |s| then s[i - at] else d[i])
  {
    d[..at] + s + d[at + |s|..]
  }

  /** The data after the first n rows of the readback are copied over the cache rectangle. */
  function CopyRows(data: seq<byte>, readback: seq<seq<byte>>, g: Geometry, mins: UInt2, maxs: UInt2, n: nat): (r: seq<byte>)
    requires CacheRect(g, mins, maxs) && DataSize(g.width, g.height, g.sampleBytes) <= |data|
    requires ReadbackCovers(readback, g, mins, maxs) && n <= RowCount(mins, maxs)
    ensures |r| == |data|
  {
    if n == 0 then data
    else
      RowInside(g, mins, maxs, n - 1);
      Splice(CopyRows(data, readback, g, mins, maxs, n - 1), RowStart(g, mins, n - 1), readback[n - 1][..RowBytes(g, mins, maxs)])
  }

  /** Bytes outside the copied rows keep their value. */
  lemma {:induction false} CopyRowsOutside(data: seq<byte>, readback: seq<seq<byte>>, g: Geometry, mins: UInt2, maxs: UInt2, n: nat, o: nat)
    requires CacheRect(g, mins, maxs) && DataSize(g.width, g.height, g.sampleBytes) <= |data|
    requires ReadbackCovers(readback, g, mins, maxs) && n <= RowCount(mins, maxs) && o < |data|
    requires forall y :: 0 <= y < n ==> !(RowStart(g, mins, y) <= o < RowStart(g, mins, y) + RowBytes(g, mins, maxs))
    ensures CopyRows(data, readback, g, mins, maxs, n)[o] == data[o]
  {
    if n > 0 {
      CopyRowsOutside(data, readback, g, mins, maxs, n - 1, o);
    }
  }

  /** Each copied row holds the readback's row. */
  lemma {:induction false} CopyRowsInside(data: seq<byte>, readback: seq<seq<byte>>, g: Geometry, mins: UInt2, maxs: UInt2, n: nat, y: nat, j: nat)
    requires CacheRect(g, mins, maxs) && DataSize(g.width, g.height, g.sampleBytes) <= |data|
    requires ReadbackCovers(readback, g, mins, maxs) && n <= RowCount(mins, maxs)
    requires y < n && j < RowBytes(g, mins, maxs)
    ensures RowStart(g, mins, y) + j < |data|
    ensures CopyRows(data, readback, g, mins, maxs, n)[RowStart(g, mins, y) + j] == readback[y][j]
  {
    RowInside(g, mins, maxs, y);
    if y < n - 1 {
      CopyRowsInside(data, readback, g, mins, maxs, n - 1, y, j);
      RowsDisjoint(g, mins, maxs, y, n - 1);
    }
  }

  /** Byte o belongs to sample (x, y). */
  predicate InSample(g: Geometry, x: nat, y: nat, o: nat)
  {
    SampleOffset(g.width, g.sampleBytes, x, y) <= o < SampleOffset(g.width, g.sampleBytes, x, y) + g.sampleBytes
  }

  lemma DivBounds(j: nat, sb: nat)
    requires sb > 0
    ensures (j / sb) * sb <= j < (j / sb) * sb + sb
  {
  }

  /** A byte of a copied row is a byte of a sample inside the cache rectangle. */
  lemma RowByteInSample(g: Geometry, mins: UInt2, maxs: UInt2, y: nat, row: nat, o: nat)
    requires CacheRect(g, mins, maxs) && y < RowCount(mins, maxs) && row == mins.y + y
    requires RowStart(g, mins, y) <= o < RowStart(g, mins, y) + RowBytes(g, mins, maxs)
    ensures exists x: nat :: mins.x <= x <= maxs.x && InSample(g, x, row, o)
  {
    var sb := g.sampleBytes;
    var j := o - RowStart(g, mins, y);
    var k := j / sb;
    DivBounds(j, sb);
    if k > maxs.x - mins.x {
      MulMonotone(maxs.x - mins.x + 1, k, sb);
      assert false;
    }
    var x := mins.x + k;
    MulAddDistributes(mins.x, k, sb);
    assert SampleOffset(g.width, sb, x, row) == RowStart(g, mins, y) + k * sb;
    assert InSample(g, x, row, o);
  }

  lemma MulAddDistributes(a: nat, b: nat, c: nat)
    ensures (a + b) * c == a * c + b * c
  {
  }

  /** Writing the cache back changes only bytes of samples inside the cache rectangle. */
  lemma CopyRowsChangesOnlyCacheSamples(data: seq<byte>, readback: seq<seq<byte>>, g: Geometry, mins: UInt2, maxs: UInt2, o: nat)
    requires CacheRect(g, mins, maxs) && DataSize(g.width, g.height, g.sampleBytes) <= |data|
    requires ReadbackCovers(readback, g, mins, maxs) && o < |data|
    requires CopyRows(data, readback, g, mins, maxs, RowCount(mins, maxs))[o] != data[o]
    ensures exists x: nat, y: nat :: mins.x <= x <= maxs.x && mins.y <= y <= maxs.y && InSample(g, x, y, o)
  {
    var n := RowCount(mins, maxs);
    if forall y :: 0 <= y < n ==> !(RowStart(g, mins, y) <= o < RowStart(g, mins, y) + RowBytes(g, mins, maxs)) {
      CopyRowsOutside(data, readback, g, mins, maxs, n, o);
      assert false;
    }
    var y :| 0 <= y < n && RowStart(g, mins, y) <= o < RowStart(g, mins, y) + RowBytes(g, mins, maxs);
    RowByteInSample(g, mins, maxs, y, mins.y + y, o);
    var x: nat :| mins.x <= x <= maxs.x && InSample(g, x, mins.y + y, o);
    assert mins.y <= mins.y + y <= maxs.y;
  }

  /** XlCopyMemory into the mapped data. */
  method CopyMemory(dst: array<byte>, at: nat, src: seq<byte>)
    requires at + |src| <= dst.Length
    modifies dst
    ensures dst[..] == Splice(old(dst[..]), at, src)
  {
    var k := 0;
    while k < |src|
      invariant 0 <= k <= |src|
      invariant forall i :: 0 <= i < dst.Length ==> dst[i] == (if at <= i < at + k then src[i - at] else old(dst[i]))
    {
      dst[at + k] := src[k];
      k := k + 1;
    }
  }

  // ---------------------------------------------------------------------------
  // Registered cells

  /** A terrain cell that wants to hear about edits; its callback is named by an id. */
  datatype RegisteredCell = RegisteredCell(filename: string, mins: UInt2, maxs: UInt2, overlap: nat, callback: nat)

  /** The two tests the source makes before touching a cell. */
  predicate Intersects(cell: RegisteredCell, mins: UInt2, maxs: UInt2)
  {
    !(maxs.x < cell.mins.x || maxs.y < cell.mins.y) && !(mins.x > cell.maxs.x || mins.y > cell.maxs.y)
  }

  predicate InRect(p: UInt2, mins: UInt2, maxs: UInt2)
  {
    mins.x <= p.x <= maxs.x && mins.y <= p.y <= maxs.y
  }

  /** For well-formed rectangles, the tests hold exactly when the two rectangles share a
    * sample. */
  lemma IntersectsIffSharedSample(cell: RegisteredCell, mins: UInt2, maxs: UInt2)
    requires cell.mins.x <= cell.maxs.x && cell.mins.y <= cell.maxs.y
    requires mins.x <= maxs.x && mins.y <= maxs.y
    ensures Intersects(cell, mins, maxs) <==> exists p :: InRect(p, cell.mins, cell.maxs) && InRect(p, mins, maxs)
  {
    if Intersects(cell, mins, maxs) {
      var p := UInt2(if mins.x < cell.mins.x then cell.mins.x else mins.x,
                     if mins.y < cell.mins.y then cell.mins.y else mins.y);
      assert InRect(p, cell.mins, cell.maxs) && InRect(p, mins, maxs);
    }
  }

  /** The indices of the cells that intersect a rectangle, in registration order. */
  function IntersectingCells(cells: seq<RegisteredCell>, mins: UInt2, maxs: UInt2): (r: seq<nat>)
    ensures forall k :: 0 <= k < |r| ==> r[k] < |cells|
  {
    if |cells| == 0 then []
    else
      IntersectingCells(cells[..|cells| - 1], mins, maxs)
        + (if Intersects(cells[|cells| - 1], mins, maxs) then [|cells| - 1] else [])
  }

  /** Exactly the intersecting cells are selected, each once and in order. */
  lemma {:induction false} IntersectingCellsExactly(cells: seq<RegisteredCell>, mins: UInt2, maxs: UInt2)
    ensures forall i :: i in IntersectingCells(cells, mins, maxs) <==> 0 <= i < |cells| && Intersects(cells[i], mins, maxs)
    ensures forall k, k' :: 0 <= k < k' < |IntersectingCells(cells, mins, maxs)| ==>
      IntersectingCells(cells, mins, maxs)[k] < IntersectingCells(cells, mins, maxs)[k']
  {
    if |cells| > 0 {
      var init := cells[..|cells| - 1];
      IntersectingCellsExactly(init, mins, maxs);
      forall i | 0 <= i < |init|
        ensures cells[i] == init[i]
      {
      }
    }
  }

  /** The loop over the registered cells, shared by the write-back and the short-circuit
    * update. */
  method SelectIntersectingCells(cells: seq<RegisteredCell>, mins: UInt2, maxs: UInt2) returns (selected: seq<nat>)
    ensures selected == IntersectingCells(cells, mins, maxs)
  {
    selected := [];
    var i := 0;
    while i < |cells|
      invariant 0 <= i <= |cells|
      invariant selected == IntersectingCells(cells[..i], mins, maxs)
    {
      assert cells[..i + 1][..i] == cells[..i];
      if Intersects(cells[i], mins, maxs) {
        selected := selected + [i];
      }
      i := i + 1;
    }
    assert cells[..i] == cells;
  }

  // ---------------------------------------------------------------------------
  // Choosing the cache window

  /** An unsigned 32-bit value read as a signed one. */
  function Signed(v: U32): int
  {
    if v < 0x8000_0000 then v else v - Word
  }

  function Max(a: int, b: int): int { if a < b then b else a }
  function Min(a: int, b: int): int { if a < b then a else b }

  const CacheSize: nat := 512

  /** One axis of PrepareCache's window: about 512 samples either side of the edit centre,
    * never less than the edited range, clamped to the field. The centre's sum and the
    * far side are unsigned 32-bit expressions. */
  function CacheWindowAxis(adjMin: U32, adjMax: U32, field: nat): (r: (nat, nat))
    requires 1 <= field
    ensures r.0 <= adjMin && r.1 < field
  {
    var editCenter := ((adjMin + adjMax) % Word) / 2;
    var cacheMin := Max(0, Min(Signed(adjMin), Signed(editCenter) - CacheSize));
    var cacheMax := Min(field - 1, Max(adjMax, (editCenter + CacheSize) % Word));
    (cacheMin as nat, cacheMax as nat)
  }

  function CacheWindow(adjMins: UInt2, adjMaxs: UInt2, g: Geometry): (r: (UInt2, UInt2))
    requires adjMins.x < Word && adjMins.y < Word && adjMaxs.x < Word && adjMaxs.y < Word
    requires 1 <= g.width && 1 <= g.height
  {
    var (minX, maxX) := CacheWindowAxis(adjMins.x, adjMaxs.x, g.width);
    var (minY, maxY) := CacheWindowAxis(adjMins.y, adjMaxs.y, g.height);
    (UInt2(minX, minY), UInt2(maxX, maxY))
  }

  /** For an edit inside the field, the window is a cache rectangle that contains the edit. */
  lemma CacheWindowContainsEdit(adjMins: UInt2, adjMaxs: UInt2, g: Geometry)
    requires adjMins.x <= adjMaxs.x < g.width && adjMins.y <= adjMaxs.y < g.height
    requires g.width <= Word && g.height <= Word
    ensures var (cacheMins, cacheMaxs) := CacheWindow(adjMins, adjMaxs, g);
      && CacheRect(g, cacheMins, cacheMaxs)
      && InRect(adjMins, cacheMins, cacheMaxs) && InRect(adjMaxs, cacheMins, cacheMaxs)
  {
  }

  /** Where the field is small enough for no 32-bit wrap, the window takes in every
    * sample of the field within 512 of the edit centre on both axes. */
  lemma CacheWindowCoversNeighbourhood(adjMins: UInt2, adjMaxs: UInt2, g: Geometry, p: UInt2)
    requires adjMins.x <= adjMaxs.x < g.width && adjMins.y <= adjMaxs.y < g.height
    requires g.width <= 0x8000_0000 && g.height <= 0x8000_0000
    requires p.x < g.width && p.y < g.height
    requires (adjMins.x + adjMaxs.x) / 2 <= p.x + CacheSize && p.x <= (adjMins.x + adjMaxs.x) / 2 + CacheSize
    requires (adjMins.y + adjMaxs.y) / 2 <= p.y + CacheSize && p.y <= (adjMins.y + adjMaxs.y) / 2 + CacheSize
    ensures var (cacheMins, cacheMaxs) := CacheWindow(adjMins, adjMaxs, g);
      InRect(p, cacheMins, cacheMaxs)
  {
    AxisCoversNeighbourhood(adjMins.x, adjMaxs.x, g.width, p.x);
    AxisCoversNeighbourhood(adjMins.y, adjMaxs.y, g.height, p.y);
  }

  /** One axis of the window takes in every sample within 512 of the edit centre. */
  lemma AxisCoversNeighbourhood(adjMin: U32, adjMax: U32, field: nat, v: nat)
    requires adjMin <= adjMax < field <= 0x8000_0000 && v < field
    requires (adjMin + adjMax) / 2 <= v + CacheSize && v <= (adjMin + adjMax) / 2 + CacheSize
    ensures var (lo, hi) := CacheWindowAxis(adjMin, adjMax, field);
      lo <= v <= hi
  {
    var editCenter := (adjMin + adjMax) / 2;
    assert (adjMin + adjMax) % Word == adjMin + adjMax;
    assert Signed(adjMin) == adjMin && Signed(editCenter) == editCenter;
    assert (editCenter + CacheSize) % Word == editCenter + CacheSize;
  }

  // ---------------------------------------------------------------------------
  // The GPU-cache interface

  /** The edit rectangle lies inside the cache rectangle. */
  predicate Within(adjMins: UInt2, adjMaxs: UInt2, cacheMins: UInt2, cacheMaxs: UInt2)
  {
    adjMins.x >= cacheMins.x && adjMins.y >= cacheMins.y && adjMaxs.x <= cacheMaxs.x && adjMaxs.y <= cacheMaxs.y
  }

  /** GenericUberSurfaceInterface. The pair of GPU cache textures is present or absent
    * together and is modelled by one flag. */
  class GenericUberSurfaceInterface {
    const uberSurface: UberSurface
    const hasIoFormat: bool
    var hasGpuCache: bool
    var gpuCacheMins: UInt2
    var gpuCacheMaxs: UInt2
    var registeredCells: seq<RegisteredCell>

    ghost predicate Valid()
      reads this
    {
      uberSurface.Valid() && (hasGpuCache ==> CacheRect(uberSurface.Geom(), gpuCacheMins, gpuCacheMaxs))
    }

    constructor (uberSurface: UberSurface, hasIoFormat: bool)
      requires uberSurface.Valid()
      ensures this.uberSurface == uberSurface && this.hasIoFormat == hasIoFormat
      ensures !hasGpuCache && registeredCells == [] && Valid()
    {
      this.uberSurface := uberSurface;
      this.hasIoFormat := hasIoFormat;
      hasGpuCache := false;
      gpuCacheMins, gpuCacheMaxs := UInt2(0, 0), UInt2(0, 0);
      registeredCells := [];
    }

    /** Copies the readback of the GPU cache over the cache rectangle, drops the cache, and
      * returns the cells whose files are rewritten (those the rectangle touches, when
      * there is a terrain format to write them with). */
    method FlushGPUCache(readback: seq<seq<byte>>) returns (rewritten: seq<nat>)
      requires Valid()
      requires hasGpuCache ==> ReadbackCovers(readback, uberSurface.Geom(), gpuCacheMins, gpuCacheMaxs)
      modifies this, uberSurface.data
      ensures Valid() && !hasGpuCache && registeredCells == old(registeredCells)
      ensures !old(hasGpuCache) ==> (gpuCacheMins == old(gpuCacheMins) && gpuCacheMaxs == old(gpuCacheMaxs)
        && uberSurface.data[..] == old(uberSurface.data[..]) && rewritten == [])
      ensures old(hasGpuCache) ==> (gpuCacheMins == UInt2(0, 0) && gpuCacheMaxs == UInt2(0, 0)
        && uberSurface.data[..] == CopyRows(old(uberSurface.data[..]), readback, uberSurface.Geom(),
             old(gpuCacheMins), old(gpuCacheMaxs), RowCount(old(gpuCacheMins), old(gpuCacheMaxs)))
        && rewritten == (if hasIoFormat then IntersectingCells(registeredCells, old(gpuCacheMins), old(gpuCacheMaxs)) else []))
    {
      rewritten := [];
      if hasGpuCache {
        CopyCacheRows(uberSurface, gpuCacheMins, gpuCacheMaxs, readback);
        hasGpuCache := false;
        if hasIoFormat {
          rewritten := SelectIntersectingCells(registeredCells, gpuCacheMins, gpuCacheMaxs);
        }
        gpuCacheMins, gpuCacheMaxs := UInt2(0, 0), UInt2(0, 0);
      }
    }

    /** Writes back any existing cache, then caches the given rectangle. */
    method BuildGPUCache(mins: UInt2, maxs: UInt2, readback: seq<seq<byte>>) returns (rewritten: seq<nat>)
      requires Valid() && CacheRect(uberSurface.Geom(), mins, maxs)
      requires hasGpuCache ==> ReadbackCovers(readback, uberSurface.Geom(), gpuCacheMins, gpuCacheMaxs)
      modifies this, uberSurface.data
      ensures Valid() && hasGpuCache && gpuCacheMins == mins && gpuCacheMaxs == maxs
      ensures registeredCells == old(registeredCells)
      ensures !old(hasGpuCache) ==> (uberSurface.data[..] == old(uberSurface.data[..]) && rewritten == [])
      ensures old(hasGpuCache) ==> (uberSurface.data[..] == CopyRows(old(uberSurface.data[..]), readback, uberSurface.Geom(),
             old(gpuCacheMins), old(gpuCacheMaxs), RowCount(old(gpuCacheMins), old(gpuCacheMaxs)))
        && rewritten == (if hasIoFormat then IntersectingCells(registeredCells, old(gpuCacheMins), old(gpuCacheMaxs)) else []))
    {
      rewritten := [];
      if hasGpuCache {
        rewritten := FlushGPUCache(readback);
      }
      hasGpuCache := true;
      gpuCacheMins := mins;
      gpuCacheMaxs := maxs;
    }

    /** Makes sure the edit rectangle is cached: an existing cache that contains it is
      * kept; otherwise the cache is written back and a new window around the edit is
      * cached. */
    method PrepareCache(adjMins: UInt2, adjMaxs: UInt2, readback: seq<seq<byte>>) returns (rewritten: seq<nat>)
      requires Valid()
      requires adjMins.x <= adjMaxs.x < uberSurface.width && adjMins.y <= adjMaxs.y < uberSurface.height
      requires uberSurface.width <= Word && uberSurface.height <= Word
      requires hasGpuCache ==> ReadbackCovers(readback, uberSurface.Geom(), gpuCacheMins, gpuCacheMaxs)
      modifies this, uberSurface.data
      ensures Valid() && hasGpuCache && registeredCells == old(registeredCells)
      ensures InRect(adjMins, gpuCacheMins, gpuCacheMaxs) && InRect(adjMaxs, gpuCacheMins, gpuCacheMaxs)
      ensures old(hasGpuCache) && Within(adjMins, adjMaxs, old(gpuCacheMins), old(gpuCacheMaxs)) ==>
        (gpuCacheMins == old(gpuCacheMins) && gpuCacheMaxs == old(gpuCacheMaxs)
         && uberSurface.data[..] == old(uberSurface.data[..]) && rewritten == [])
      ensures !(old(hasGpuCache) && Within(adjMins, adjMaxs, old(gpuCacheMins), old(gpuCacheMaxs))) ==>
        (gpuCacheMins, gpuCacheMaxs) == CacheWindow(adjMins, adjMaxs, uberSurface.Geom())
      ensures !old(hasGpuCache) ==> (uberSurface.data[..] == old(uberSurface.data[..]) && rewritten == [])
      ensures old(hasGpuCache) && !Within(adjMins, adjMaxs, old(gpuCacheMins), old(gpuCacheMaxs)) ==>
        (uberSurface.data[..] == CopyRows(old(uberSurface.data[..]), readback, uberSurface.Geom(),
             old(gpuCacheMins), old(gpuCacheMaxs), RowCount(old(gpuCacheMins), old(gpuCacheMaxs)))
         && rewritten == (if hasIoFormat then IntersectingCells(registeredCells, old(gpuCacheMins), old(gpuCacheMaxs)) else []))
    {
      var fieldWidth := uberSurface.width;
      var fieldHeight := uberSurface.height;
      rewritten := [];
      if hasGpuCache {
        var within := Within(adjMins, adjMaxs, gpuCacheMins, gpuCacheMaxs);
        if !within {
          rewritten := FlushGPUCache(readback);
        }
      }
      if !hasGpuCache {
        var (cacheMins, cacheMaxs) := CacheWindow(adjMins, adjMaxs, uberSurface.Geom());
        CacheWindowContainsEdit(adjMins, adjMaxs, uberSurface.Geom());
        var more := BuildGPUCache(cacheMins, cacheMaxs, readback);
      }
    }

    /** Tells the registered cells that the edit rectangle touches to refresh from the
      * cache; returns them in registration order. */
    method DoShortCircuitUpdate(adjMins: UInt2, adjMaxs: UInt2) returns (notified: seq<nat>)
      ensures forall i :: i in notified <==> 0 <= i < |registeredCells| && Intersects(registeredCells[i], adjMins, adjMaxs)
      ensures forall k, k' :: 0 <= k < k' < |notified| ==> notified[k] < notified[k']
    {
      notified := SelectIntersectingCells(registeredCells, adjMins, adjMaxs);
      IntersectingCellsExactly(registeredCells, adjMins, adjMaxs);
    }

    /** Appends a cell to the registered cells. */
    method RegisterCell(filename: string, mins: UInt2, maxs: UInt2, overlap: nat, callback: nat)
      modifies this
      ensures registeredCells == old(registeredCells) + [RegisteredCell(filename, mins, maxs, overlap, callback)]
      ensures hasGpuCache == old(hasGpuCache) && gpuCacheMins == old(gpuCacheMins) && gpuCacheMaxs == old(gpuCacheMaxs)
    {
      registeredCells := registeredCells + [RegisteredCell(filename, mins, maxs, overlap, callback)];
    }
  }

  lemma RowStartByStride(g: Geometry, mins: UInt2, y: nat)
    ensures RowStart(g, mins, y) == SampleOffset(g.width, g.sampleBytes, mins.x, mins.y) + y * (g.width * g.sampleBytes)
  {
    var stride := g.width * g.sampleBytes;
    assert (mins.y + y) * stride == mins.y * stride + y * stride;
  }

  /** FlushGPUCache's copy: one row of the readback over each row of the cache rectangle. */
  method CopyCacheRows(surface: UberSurface, mins: UInt2, maxs: UInt2, readback: seq<seq<byte>>)
    requires surface.Valid() && CacheRect(surface.Geom(), mins, maxs)
    requires ReadbackCovers(readback, surface.Geom(), mins, maxs)
    modifies surface.data
    ensures surface.data[..] == CopyRows(old(surface.data[..]), readback, surface.Geom(), mins, maxs, RowCount(mins, maxs))
  {
    var g := surface.Geom();
    var dstStart := surface.GetData(mins).value;
    var dstStride := surface.GetStride();
    var dims := UInt2(maxs.x - mins.x + 1, maxs.y - mins.y + 1);
    var bytesPerSample := surface.sampleBytes;
    var y := 0;
    while y < dims.y
      invariant 0 <= y <= dims.y
      invariant surface.data[..] == CopyRows(old(surface.data[..]), readback, g, mins, maxs, y)
    {
      RowInside(g, mins, maxs, y);
      RowStartByStride(g, mins, y);
      var at := dstStart + y * dstStride;
      var line := readback[y][..dims.x * bytesPerSample];
      assert at == RowStart(g, mins, y) && |line| == RowBytes(g, mins, maxs);
      assert line == readback[y][..RowBytes(g, mins, maxs)];
      CopyMemory(surface.data, at, line);
      y := y + 1;
    }
  }
}
