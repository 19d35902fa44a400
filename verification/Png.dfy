/** Writing an RGBA image as a PNG file, against a reading of the format (RFC 2083).

    The compressor is a parameter, and so is the decompressor that undoes it. The functions also
    take the chunk checksum as a parameter, so that proofs about the layout of a file never look
    into it; `Crc` is the one the writer computes. */
module Png {
  import opened Bytes
  import opened Crc32
  import opened Scanlines
  import opened Wrappers
  import ImageHeader

  const MAX_SAFE_INTEGER := 0x1F_FFFF_FFFF_FFFF
  const LIMIT := 0x1_0000_0000

  const IHDR: seq<Byte> := [0x49, 0x48, 0x44, 0x52]
  const IDAT: seq<Byte> := [0x49, 0x44, 0x41, 0x54]
  const IEND: seq<Byte> := [0x49, 0x45, 0x4e, 0x44]

  /** Eight bits a sample, colour type RGBA, and the only compression, filter and interlace
      methods the writer uses. */
  const FORMAT: seq<Byte> := [8, 6, 0, 0, 0]

  type Word = n: nat | n < LIMIT

  type Digest = seq<Byte> -> Word

  function Crc(data: seq<Byte>): Word { Checksum(data) as nat }

  datatype Error = BadDimensions | BadLength | OutOfRange

  datatype Image = Image(width: nat, height: nat, rgba: seq<Byte>) {
    predicate Valid() { |rgba| == height * (4 * width) }

    /** The scanlines, unfiltered. */
    function Rows(): seq<Byte> { Filtered(0, rgba, 4 * width, height) }
  }

  // ------------------------------------------------------------------------------------------
  // Reading the format
  // ------------------------------------------------------------------------------------------

  /** Section 3.2: four bytes of length, four of type, the data, and the checksum of type and data. */
  datatype AnyChunk = Chunk(name: seq<Byte>, data: seq<Byte>) {
    predicate Valid() { |name| == 4 && |data| < LIMIT }
  }

  type Chunk = chunk: AnyChunk | chunk.Valid() witness Chunk(IEND, [])

  function ReadChunk(digest: Digest, bytes: seq<Byte>): Option<(Chunk, seq<Byte>)> {
    if |bytes| < 12 then None
    else
      var length := U32(bytes[..4]);
      if |bytes| < 12 + length then None
      else
        var name, data := bytes[4..8], bytes[8..8 + length];
        if U32(bytes[8 + length..12 + length]) != digest(name + data) then None
        else Some((Chunk(name, data), bytes[12 + length..]))
  }

  function ReadAll<T>(read: seq<Byte> -> Option<(T, seq<Byte>)>, bytes: seq<Byte>): Option<seq<T>>
    decreases |bytes|
  {
    if bytes == [] then Some([])
    else match read(bytes)
      case None => None
      case Some((item, rest)) =>
        if |rest| >= |bytes| then None
        else match ReadAll(read, rest)
          case None => None
          case Some(items) => Some([item] + items)
  }

  function ReadChunks(digest: Digest, bytes: seq<Byte>): Option<seq<Chunk>> {
    ReadAll(rest => ReadChunk(digest, rest), bytes)
  }

  function ReadImage(chunks: seq<Chunk>, inflate: seq<Byte> -> Option<seq<Byte>>): Option<Image> {
    if |chunks| != 3 || chunks[0].name != IHDR || chunks[1].name != IDAT || chunks[2] != Chunk(IEND, []) then None
    else if |chunks[0].data| != 13 || chunks[0].data[8..13] != FORMAT then None
    else
      var width, height := U32(chunks[0].data[..4]), U32(chunks[0].data[4..8]);
      match inflate(chunks[1].data)
      case None => None
      case Some(scanlines) =>
        match Unfilter(0, scanlines, 4 * width, height)
        case None => None
        case Some(rgba) => Some(Image(width, height, rgba))
  }

  function Read(digest: Digest, file: seq<Byte>, inflate: seq<Byte> -> Option<seq<Byte>>): Option<Image> {
    if !(ImageHeader.PNG_SIGNATURE <= file) then None
    else match ReadChunks(digest, file[8..])
      case None => None
      case Some(chunks) => ReadImage(chunks, inflate)
  }

  // ------------------------------------------------------------------------------------------
  // Writing
  // ------------------------------------------------------------------------------------------

  function WriteU32(n: nat): (r: Result<seq<Byte>, Error>) {
    if n < LIMIT then Success(U32Bytes(n)) else Failure(OutOfRange)
  }

  function ChunkBytes(digest: Digest, chunk: Chunk): seq<Byte> {
    U32Bytes(|chunk.data|) + chunk.name + chunk.data + U32Bytes(digest(chunk.name + chunk.data))
  }

  function WriteAll<T>(write: T -> seq<Byte>, items: seq<T>): seq<Byte> {
    if items == [] then [] else write(items[0]) + WriteAll(write, items[1..])
  }

  function HeaderChunk(width: nat, height: nat): Chunk
    requires width < LIMIT && height < LIMIT
  {
    Chunk(IHDR, Header(width, height))
  }

  function DataChunk(data: seq<Byte>): Chunk
    requires |data| < LIMIT
  {
    Chunk(IDAT, data)
  }

  const END_CHUNK: Chunk := Chunk(IEND, [])

  function File(digest: Digest, image: Image, deflate: seq<Byte> -> seq<Byte>): Result<seq<Byte>, Error>
    requires image.Valid()
  {
    var data := deflate(image.Rows());
    if image.width >= LIMIT || image.height >= LIMIT || |data| >= LIMIT then Failure(OutOfRange)
    else
      Success(ImageHeader.PNG_SIGNATURE + ChunkBytes(digest, HeaderChunk(image.width, image.height))
              + ChunkBytes(digest, DataChunk(data)) + ChunkBytes(digest, END_CHUNK))
  }

  function Header(width: nat, height: nat): (header: seq<Byte>)
    requires width < LIMIT && height < LIMIT
    ensures |header| == 13
  {
    U32Bytes(width) + U32Bytes(height) + FORMAT
  }

  method PngChunk(name: seq<Byte>, data: seq<Byte>) returns (bytes: Result<seq<Byte>, Error>)
    requires |name| == 4
    ensures bytes == if |data| < LIMIT then Success(ChunkBytes(Crc, Chunk(name, data))) else Failure(OutOfRange)
  {
    var length :- WriteU32(|data|);
    var crc := ComputeCrc32(name + data);
    return Success(length + name + data + U32Bytes(crc as nat));
  }

  method EncodePng(width: nat, height: nat, rgba: seq<Byte>, deflate: seq<Byte> -> seq<Byte>)
    returns (file: Result<seq<Byte>, Error>)
    requires Image(width, height, rgba).Valid()
    ensures file == File(Crc, Image(width, height, rgba), deflate)
  {
    var scanlines := FilterRows<Byte>(0, rgba, 4 * width, height);
    var widthBytes :- WriteU32(width);
    var heightBytes :- WriteU32(height);
    file := Assemble(widthBytes + heightBytes + FORMAT, deflate(scanlines[..]));
  }

  method Assemble(header: seq<Byte>, data: seq<Byte>) returns (file: Result<seq<Byte>, Error>)
    requires |header| == 13
    ensures file == if |data| >= LIMIT then Failure(OutOfRange) else
                      Success(ImageHeader.PNG_SIGNATURE + ChunkBytes(Crc, Chunk(IHDR, header))
                              + ChunkBytes(Crc, Chunk(IDAT, data)) + ChunkBytes(Crc, Chunk(IEND, [])))
  {
    var ihdr := PngChunk(IHDR, header);
    var idat :- PngChunk(IDAT, data);
    var iend := PngChunk(IEND, []);
    return Success(ImageHeader.PNG_SIGNATURE + ihdr.value + idat + iend.value);
  }

  /** What the caller checks before anything is written. JavaScript multiplies in floating point,
      but a product above the safe integers cannot round back into them. */
  function Validate(width: int, height: int, length: nat): Option<Error> {
    if width > MAX_SAFE_INTEGER || height > MAX_SAFE_INTEGER || width <= 0 || height <= 0 then Some(BadDimensions)
    else if width * height * 4 > MAX_SAFE_INTEGER || length != width * height * 4 then Some(BadLength)
    else None
  }

  method RenderRgba(width: int, height: int, rgba: seq<Byte>, deflate: seq<Byte> -> seq<Byte>)
    returns (file: Result<seq<Byte>, Error>)
    ensures Validate(width, height, |rgba|).Some? ==> file == Failure(Validate(width, height, |rgba|).value)
    ensures Validate(width, height, |rgba|).None? ==>
              && width > 0 && height > 0 && |rgba| == width * height * 4 && Image(width, height, rgba).Valid()
              && file == File(Crc, Image(width, height, rgba), deflate)
  {
    if width > MAX_SAFE_INTEGER || height > MAX_SAFE_INTEGER || width <= 0 || height <= 0 {
      return Failure(BadDimensions);
    }
    var expected := width * height * 4;
    if expected > MAX_SAFE_INTEGER || |rgba| != expected {
      return Failure(BadLength);
    }
    AreaIsRows(width, height);
    file := EncodePng(width, height, rgba, deflate);
  }

  lemma AreaIsRows(width: int, height: int)
    ensures width * height * 4 == height * (4 * width)
  {}

  // ------------------------------------------------------------------------------------------
  // Round trip
  // ------------------------------------------------------------------------------------------

  lemma Fields(length: seq<Byte>, name: seq<Byte>, data: seq<Byte>, sum: seq<Byte>, rest: seq<Byte>)
    requires |length| == |name| == |sum| == 4
    ensures var bytes := length + name + data + sum + rest;
            && bytes[..4] == length && bytes[4..8] == name && bytes[8..8 + |data|] == data
            && bytes[8 + |data|..12 + |data|] == sum && bytes[12 + |data|..] == rest
  {
    var bytes := length + name + data + sum + rest;
    assert bytes[4..8] == name;
    assert bytes[8 + |data|..12 + |data|] == sum;
  }

  lemma ChunkIsReadBack(digest: Digest, chunk: Chunk, rest: seq<Byte>)
    ensures ChunkBytes(digest, chunk) != []
    ensures ReadChunk(digest, ChunkBytes(digest, chunk) + rest) == Some((chunk, rest))
  {
    Fields(U32Bytes(|chunk.data|), chunk.name, chunk.data, U32Bytes(digest(chunk.name + chunk.data)), rest);
  }

  ghost predicate ReadsBack<T(!new)>(read: seq<Byte> -> Option<(T, seq<Byte>)>, write: T -> seq<Byte>) {
    forall item, rest {:trigger write(item) + rest} ::
      write(item) != [] && read(write(item) + rest) == Some((item, rest))
  }

  /** A reader that gets back every item from its bytes gets back a list of them. */
  lemma {:induction false} ListIsReadBack<T(!new)>(read: seq<Byte> -> Option<(T, seq<Byte>)>, write: T -> seq<Byte>,
                                                   items: seq<T>)
    requires ReadsBack(read, write)
    ensures ReadAll(read, WriteAll(write, items)) == Some(items)
  {
    if items != [] {
      ListIsReadBack(read, write, items[1..]);
      var rest := WriteAll(write, items[1..]);
      assert read(write(items[0]) + rest) == Some((items[0], rest)) && write(items[0]) != [];
      assert [items[0]] + items[1..] == items;
    }
  }

  lemma ChunksAreReadBack(digest: Digest, chunks: seq<Chunk>)
    ensures ReadChunks(digest, WriteAll(chunk => ChunkBytes(digest, chunk), chunks)) == Some(chunks)
  {
    var read, write := rest => ReadChunk(digest, rest), (chunk: Chunk) => ChunkBytes(digest, chunk);
    forall chunk: Chunk, rest: seq<Byte>
      ensures write(chunk) != [] && read(write(chunk) + rest) == Some((chunk, rest))
    {
      ChunkIsReadBack(digest, chunk, rest);
    }
    ListIsReadBack(read, write, chunks);
  }

  lemma ThreeItems<T>(write: T -> seq<Byte>, a: T, b: T, c: T, prefix: seq<Byte>)
    ensures prefix + write(a) + write(b) + write(c) == prefix + WriteAll(write, [a, b, c])
  {
    assert [a, b, c][1..] == [b, c] && [b, c][1..] == [c];
    assert WriteAll(write, [c]) == write(c);
    assert WriteAll(write, [b, c]) == write(b) + write(c);
    assert WriteAll(write, [a, b, c]) == write(a) + (write(b) + write(c));
  }

  ghost predicate Undoes(inflate: seq<Byte> -> Option<seq<Byte>>, deflate: seq<Byte> -> seq<Byte>) {
    forall data :: inflate(deflate(data)) == Some(data)
  }

  lemma HeaderFields(width: nat, height: nat)
    requires width < LIMIT && height < LIMIT
    ensures var header := Header(width, height);
            U32(header[..4]) == width && U32(header[4..8]) == height && header[8..13] == FORMAT
  {
    var header := Header(width, height);
    assert header[..4] == U32Bytes(width) && header[4..8] == U32Bytes(height);
  }

  function ImageChunks(image: Image, data: seq<Byte>): seq<Chunk>
    requires image.width < LIMIT && image.height < LIMIT && |data| < LIMIT
  {
    [HeaderChunk(image.width, image.height), DataChunk(data), END_CHUNK]
  }

  lemma BodyFollowsSignature(digest: Digest, image: Image, deflate: seq<Byte> -> seq<Byte>)
    requires image.Valid() && File(digest, image, deflate).Success?
    ensures ImageHeader.PNG_SIGNATURE <= File(digest, image, deflate).value
    ensures ReadChunks(digest, File(digest, image, deflate).value[8..])
            == Some(ImageChunks(image, deflate(image.Rows())))
  {
    var file := File(digest, image, deflate).value;
    var ihdr: Chunk := HeaderChunk(image.width, image.height);
    var idat: Chunk := DataChunk(deflate(image.Rows()));
    var iend: Chunk := Chunk(IEND, []);
    var write := (chunk: Chunk) => ChunkBytes(digest, chunk);
    var body := WriteAll(write, [ihdr, idat, iend]);
    ThreeItems(write, ihdr, idat, iend, ImageHeader.PNG_SIGNATURE);
    assert file == ImageHeader.PNG_SIGNATURE + body;
    assert file[8..] == body;
    ChunksAreReadBack(digest, [ihdr, idat, iend]);
  }

  /** A reader of the format gets back exactly the image that was written, every checksum
      verifying on the way. */
  lemma FileHoldsImage(digest: Digest, image: Image, deflate: seq<Byte> -> seq<Byte>,
                       inflate: seq<Byte> -> Option<seq<Byte>>)
    requires image.Valid()
    ensures Undoes(inflate, deflate) && File(digest, image, deflate).Success? ==>
              Read(digest, File(digest, image, deflate).value, inflate) == Some(image)
  {
    if Undoes(inflate, deflate) && File(digest, image, deflate).Success? {
      WrittenIsRead(digest, image, deflate, inflate);
    }
  }

  lemma ImageIsRead(image: Image, data: seq<Byte>, inflate: seq<Byte> -> Option<seq<Byte>>)
    requires image.width < LIMIT && image.height < LIMIT && |data| < LIMIT
    requires image.Valid()
    requires inflate(data) == Some(image.Rows())
    ensures ReadImage(ImageChunks(image, data), inflate) == Some(image)
  {
    HeaderFields(image.width, image.height);
    RowsAreUnfiltered(0, image.rgba, 4 * image.width, image.height);
  }

  lemma WrittenIsRead(digest: Digest, image: Image, deflate: seq<Byte> -> seq<Byte>,
                      inflate: seq<Byte> -> Option<seq<Byte>>)
    requires image.Valid() && Undoes(inflate, deflate)
    requires File(digest, image, deflate).Success?
    ensures Read(digest, File(digest, image, deflate).value, inflate) == Some(image)
  {
    BodyFollowsSignature(digest, image, deflate);
    ImageIsRead(image, deflate(image.Rows()), inflate);
  }

  lemma FirstChunkData(signature: seq<Byte>, length: seq<Byte>, name: seq<Byte>, data: seq<Byte>, sum: seq<Byte>,
                       rest: seq<Byte>)
    requires |signature| == 8 && |length| == |name| == 4 && |data| == 13
    ensures var file := signature + (length + name + data + sum) + rest;
            signature <= file && file[16..20] == data[..4] && file[20..24] == data[4..8]
  {}

  /** The pane's own header parser reads the size of the image off the file. */
  lemma HeaderParserAgrees(digest: Digest, image: Image, deflate: seq<Byte> -> seq<Byte>)
    requires image.Valid() && File(digest, image, deflate).Success?
    ensures ImageHeader.InfoOf(File(digest, image, deflate).value)
            == Success(ImageHeader.Info(ImageHeader.PNG, image.width, image.height))
  {
    var file := File(digest, image, deflate).value;
    var header := Header(image.width, image.height);
    var idat := ChunkBytes(digest, DataChunk(deflate(image.Rows())));
    var iend := ChunkBytes(digest, Chunk(IEND, []));
    FirstChunkData(ImageHeader.PNG_SIGNATURE, U32Bytes(13), IHDR, header, U32Bytes(digest(IHDR + header)), idat + iend);
    Regroup(ImageHeader.PNG_SIGNATURE + ChunkBytes(digest, Chunk(IHDR, header)), idat, iend);
    HeaderFields(image.width, image.height);
  }

  lemma Regroup(a: seq<Byte>, b: seq<Byte>, c: seq<Byte>)
    ensures a + b + c == a + (b + c)
  {}

  /** A file is written exactly if width, height and the deflated rows can be expressed in four bytes. */
  lemma FileIsWrittenExactly(digest: Digest, image: Image, deflate: seq<Byte> -> seq<Byte>)
    requires image.Valid()
    ensures File(digest, image, deflate).Success? <==>
              image.width < 0x1_0000_0000 && image.height < 0x1_0000_0000
              && |deflate(image.Rows())| < 0x1_0000_0000
  {
    var data := deflate(image.Rows());
    if image.width >= LIMIT || image.height >= LIMIT || |data| >= LIMIT {
      assert File(digest, image, deflate) == Failure(OutOfRange);
    }
  }

  /** An image is rendered if both dimensions are positive safe integers and so is its length, which must
      be four bytes a pixel; the dimensions are complained about first. */
  lemma ValidationIsExact(width: int, height: int, length: nat)
    ensures var sized := 0 < width <= 9_007_199_254_740_991 && 0 < height <= 9_007_199_254_740_991;
            && (Validate(width, height, length) == Some(BadDimensions) <==> !sized)
            && (Validate(width, height, length) == Some(BadLength) <==>
                  sized && !(length == width * height * 4 && length <= 9_007_199_254_740_991))
            && Validate(width, height, length) != Some(OutOfRange)
  {}

  /** The file byte by byte, as far as deflate and the checksum are known: the signature, a header of
      thirteen bytes that says eight bits a sample and colour type RGBA, the data, and an empty end. */
  lemma FileIsLaidOut(digest: Digest, image: Image, deflate: seq<Byte> -> seq<Byte>)
    requires image.Valid() && File(digest, image, deflate).Success?
    ensures var file, data := File(digest, image, deflate).value, deflate(image.Rows());
            var header := [73, 72, 68, 82] + (U32Bytes(image.width) + U32Bytes(image.height) + [8, 6, 0, 0, 0]);
            file == [137, 80, 78, 71, 13, 10, 26, 10]
                    + Framed(13, header, digest)
                    + Framed(|data|, [73, 68, 65, 84] + data, digest)
                    + Framed(0, [73, 69, 78, 68], digest)
  {
    var data := deflate(image.Rows());
    ChunkIsFramed(digest, HeaderChunk(image.width, image.height));
    ChunkIsFramed(digest, DataChunk(data));
    ChunkIsFramed(digest, END_CHUNK);
    assert IEND + [] == IEND;
  }

  /** A name and its data between their length and their checksum. */
  function Framed(length: nat, content: seq<Byte>, digest: Digest): seq<Byte>
    requires length < LIMIT
  {
    U32Bytes(length) + content + U32Bytes(digest(content))
  }

  lemma ChunkIsFramed(digest: Digest, chunk: Chunk)
    ensures ChunkBytes(digest, chunk) == Framed(|chunk.data|, chunk.name + chunk.data, digest)
  {}

  // ------------------------------------------------------------------------------------------
  // Damage
  // ------------------------------------------------------------------------------------------

  lemma MismatchIsRejected(digest: Digest, chunk: Chunk, sum: Word, rest: seq<Byte>)
    requires sum != digest(chunk.name + chunk.data)
    ensures ReadChunk(digest, U32Bytes(|chunk.data|) + chunk.name + chunk.data + U32Bytes(sum) + rest) == None
  {
    Fields(U32Bytes(|chunk.data|), chunk.name, chunk.data, U32Bytes(sum), rest);
  }

  lemma WordIsInvertible(a: bv32)
    ensures (a as nat) as bv32 == a
  {}

  lemma BurstsChangeTheDigest(x: seq<Byte>, y: seq<Byte>, i: nat)
    requires |x| == |y| && x != y
    requires forall j :: 0 <= j < |x| && !(i <= j < i + 4) ==> x[j] == y[j]
    ensures Crc(x) != Crc(y)
  {
    BurstsAreDetected(x, y, i);
    if Crc(x) == Crc(y) {
      WordIsInvertible(Checksum(x));
      WordIsInvertible(Checksum(y));
      assert false;
    }
  }

  /** A chunk of which up to four consecutive bytes of type and data were altered does not pass
      the checksum written with it. */
  lemma DamageIsRejected(chunk: Chunk, damaged: Chunk, i: nat, rest: seq<Byte>)
    requires |damaged.data| == |chunk.data| && damaged != chunk
    requires var x, y := damaged.name + damaged.data, chunk.name + chunk.data;
             forall j :: 0 <= j < |x| && !(i <= j < i + 4) ==> x[j] == y[j]
    ensures ReadChunk(Crc, U32Bytes(|damaged.data|) + damaged.name + damaged.data
                           + U32Bytes(Crc(chunk.name + chunk.data)) + rest) == None
  {
    var x, y := damaged.name + damaged.data, chunk.name + chunk.data;
    assert x[..4] == damaged.name && x[4..] == damaged.data && y[..4] == chunk.name && y[4..] == chunk.data;
    BurstsChangeTheDigest(x, y, i);
    MismatchIsRejected(Crc, damaged, Crc(y), rest);
  }
}
