/** Reading the size of an encoded image from its first bytes. */
module ImageHeader {
  import opened Bytes
  import opened Wrappers

  const PNG_SIGNATURE: seq<Byte> := [0x89, 0x50, 0x4e, 0x47, 0x0d, 0x0a, 0x1a, 0x0a]
  const JPEG_START: seq<Byte> := [0xff, 0xd8]

  const PNG := 1
  const JPEG := 2

  datatype Info = Info(encoding: nat, width: nat, height: nat)

  datatype Error = InvalidMarkerStream | TruncatedSegment | InvalidFrameHeader | Unsupported

  predicate Standalone(marker: Byte) { marker == 0xd8 || marker == 0xd9 }

  predicate FrameMarker(marker: Byte) { 0xc0 <= marker <= 0xc3 }

  // ------------------------------------------------------------------------------------------
  // The grammar of a marker stream
  // ------------------------------------------------------------------------------------------

  /** A marker without a body, or a marker with a length-prefixed payload. */
  datatype Element = Bare(marker: Byte) | Segment(marker: Byte, payload: seq<Byte>) {
    predicate Skips() {
      if Bare? then Standalone(marker)
      else !Standalone(marker) && !FrameMarker(marker) && |payload| + 2 < 0x1_0000
    }
  }

  type Skipped = element: Element | element.Skips() witness Bare(0xd8)

  function Encode(element: Skipped): seq<Byte> {
    match element
    case Bare(marker) => [0xff, marker]
    case Segment(marker, payload) => [0xff, marker] + U16Bytes(|payload| + 2) + payload
  }

  function EncodeAll(elements: seq<Skipped>): seq<Byte> {
    if elements == [] then [] else Encode(elements[0]) + EncodeAll(elements[1..])
  }

  /** What stops the scan: fewer than four bytes, a byte that is not a marker, a segment that
      runs past the end of the data, or a frame header. */
  predicate Halts(rest: seq<Byte>) {
    || |rest| < 4
    || rest[0] != 0xff
    || (!Standalone(rest[1])
        && (U16(rest[2], rest[3]) < 2 || 2 + U16(rest[2], rest[3]) > |rest| || FrameMarker(rest[1])))
  }

  /** What a scan that stops here reports. A frame header holds the precision, then height, then
      width. */
  function Verdict(rest: seq<Byte>): Result<Info, Error>
    requires Halts(rest)
  {
    if |rest| < 4 then Failure(Unsupported)
    else if rest[0] != 0xff then Failure(InvalidMarkerStream)
    else
      var length := U16(rest[2], rest[3]);
      if length < 2 || 2 + length > |rest| then Failure(TruncatedSegment)
      else if length < 7 then Failure(InvalidFrameHeader)
      else Success(Info(JPEG, U16(rest[7], rest[8]), U16(rest[5], rest[6])))
  }

  // ------------------------------------------------------------------------------------------
  // The scan
  // ------------------------------------------------------------------------------------------

  /** The verdict at the first place where the stream stops being skippable. */
  function Scan(rest: seq<Byte>): Result<Info, Error> {
    if Halts(rest) then Verdict(rest)
    else if Standalone(rest[1]) then Scan(rest[2..])
    else Scan(rest[2 + U16(rest[2], rest[3])..])
  }

  function InfoOf(data: seq<Byte>): Result<Info, Error> {
    if PNG_SIGNATURE <= data && |data| >= 24 then
      Success(Info(PNG, U32(data[16..20]), U32(data[20..24])))
    else if JPEG_START <= data then Scan(data[2..])
    else Failure(Unsupported)
  }

  method EncodedImageInfo(data: seq<Byte>) returns (info: Result<Info, Error>)
    ensures info == InfoOf(data)
  {
    if PNG_SIGNATURE <= data && |data| >= 24 {
      return Success(Info(PNG, U32(data[16..20]), U32(data[20..24])));
    }
    if JPEG_START <= data {
      var offset := 2;
      while offset + 4 <= |data|
        invariant 2 <= offset <= |data|
        invariant InfoOf(data) == Scan(data[offset..])
        decreases |data| - offset
      {
        ghost var rest := data[offset..];
        if data[offset] != 0xff {
          return Failure(InvalidMarkerStream);
        }
        var marker := data[offset + 1];
        offset := offset + 2;
        if marker == 0xd8 || marker == 0xd9 {
          assert rest[2..] == data[offset..];
          continue;
        }
        var length := U16(data[offset], data[offset + 1]);
        if length < 2 || offset + length > |data| {
          return Failure(TruncatedSegment);
        }
        if 0xc0 <= marker <= 0xc3 {
          if length < 7 {
            return Failure(InvalidFrameHeader);
          }
          var height := U16(data[offset + 3], data[offset + 4]);
          var width := U16(data[offset + 5], data[offset + 6]);
          return Success(Info(JPEG, width, height));
        }
        offset := offset + length;
        assert rest[2 + length..] == data[offset..];
      }
    }
    return Failure(Unsupported);
  }

  // ------------------------------------------------------------------------------------------
  // The scan against the grammar
  // ------------------------------------------------------------------------------------------

  lemma SkipOne(element: Skipped, rest: seq<Byte>)
    ensures Scan(Encode(element) + rest) == Scan(rest)
  {
    var data := Encode(element) + rest;
    match element {
      case Bare(_) =>
        assert data[2..] == rest;
      case Segment(_, payload) =>
        var length := U16Bytes(|payload| + 2);
        assert data[2] == length[0] && data[3] == length[1];
        assert data[2 + U16(data[2], data[3])..] == rest;
    }
  }

  /** Any skippable elements in front of a stream leave its verdict alone. */
  lemma {:induction false} PrefixIsSkipped(elements: seq<Skipped>, rest: seq<Byte>)
    ensures Scan(EncodeAll(elements) + rest) == Scan(rest)
  {
    if elements == [] {
      assert EncodeAll(elements) + rest == rest;
    } else {
      var tail := EncodeAll(elements[1..]) + rest;
      PrefixIsSkipped(elements[1..], rest);
      SkipOne(elements[0], tail);
      assert EncodeAll(elements) + rest == Encode(elements[0]) + tail;
    }
  }

  lemma U16IsInjective(hi: Byte, lo: Byte)
    ensures U16Bytes(U16(hi, lo)) == [hi, lo]
  {}

  lemma FirstElement(data: seq<Byte>) returns (element: Skipped, tail: seq<Byte>)
    requires !Halts(data)
    ensures data == Encode(element) + tail
  {
    if Standalone(data[1]) {
      element, tail := Bare(data[1]), data[2..];
    } else {
      var length := U16(data[2], data[3]);
      element, tail := Segment(data[1], data[4..2 + length]), data[2 + length..];
      U16IsInjective(data[2], data[3]);
    }
  }

  lemma Prepend(element: Skipped, others: seq<Skipped>, rest: seq<Byte>)
    ensures EncodeAll([element] + others) + rest == Encode(element) + (EncodeAll(others) + rest)
  {
    assert ([element] + others)[1..] == others;
  }

  /** Every byte string is skippable elements followed by something that stops the scan, and the
      scan reports the verdict there. */
  lemma {:induction false} Decompose(data: seq<Byte>) returns (elements: seq<Skipped>, rest: seq<Byte>)
    ensures Halts(rest) && data == EncodeAll(elements) + rest && Scan(data) == Verdict(rest)
    decreases |data|
  {
    if Halts(data) {
      elements, rest := [], data;
    } else {
      var element, tail := FirstElement(data);
      var others;
      others, rest := Decompose(tail);
      elements := [element] + others;
      Prepend(element, others, rest);
      SkipOne(element, tail);
    }
  }

  /** A frame header with at least the five bytes the parser reads, and whatever follows it. */
  ghost predicate FrameHeader(rest: seq<Byte>, width: nat, height: nat) {
    && |rest| >= 9 && rest[0] == 0xff && FrameMarker(rest[1])
    && 7 <= U16(rest[2], rest[3]) <= |rest| - 2
    && height == U16(rest[5], rest[6]) && width == U16(rest[7], rest[8])
  }

  ghost predicate JpegOf(data: seq<Byte>, elements: seq<Skipped>, rest: seq<Byte>, width: nat, height: nat) {
    JPEG_START <= data && data[2..] == EncodeAll(elements) + rest && FrameHeader(rest, width, height)
  }

  lemma JpegIsFound(data: seq<Byte>, elements: seq<Skipped>, rest: seq<Byte>, width: nat, height: nat)
    requires JpegOf(data, elements, rest, width, height)
    ensures InfoOf(data) == Success(Info(JPEG, width, height))
  {
    assert data[0] == 0xff;
    PrefixIsSkipped(elements, rest);
  }

  lemma FoundIsJpeg(data: seq<Byte>, width: nat, height: nat) returns (elements: seq<Skipped>, rest: seq<Byte>)
    requires InfoOf(data) == Success(Info(JPEG, width, height))
    ensures JpegOf(data, elements, rest, width, height)
  {
    elements, rest := Decompose(data[2..]);
  }

  /** The parser reports a JPEG of a size exactly for the data that are a start marker, skippable
      elements and a frame header of that size. */
  lemma JpegIsExact(data: seq<Byte>, width: nat, height: nat)
    ensures InfoOf(data) == Success(Info(JPEG, width, height)) <==>
            exists elements, rest :: JpegOf(data, elements, rest, width, height)
  {
    if InfoOf(data) == Success(Info(JPEG, width, height)) {
      var elements, rest := FoundIsJpeg(data, width, height);
    }
    if elements, rest :| JpegOf(data, elements, rest, width, height) {
      JpegIsFound(data, elements, rest, width, height);
    }
  }

  /** The parser reports a PNG of a size exactly for data that begin with the signature and hold
      that size in bytes 16 to 24. */
  lemma PngIsExact(data: seq<Byte>, width: nat, height: nat)
    ensures InfoOf(data) == Success(Info(PNG, width, height)) <==>
            |data| >= 24 && data[..8] == PNG_SIGNATURE && U32(data[16..20]) == width && U32(data[20..24]) == height
  {
    if JPEG_START <= data && !(PNG_SIGNATURE <= data) {
      var _, _ := Decompose(data[2..]);
    }
  }

  /** The literal bytes: the two start markers, the four frame headers, and the markers that stand alone. */
  lemma MarkersAreExact(marker: Byte)
    ensures FrameMarker(marker) <==> marker in {192, 193, 194, 195}
    ensures Standalone(marker) <==> marker in {216, 217}
  {}

  /** A start marker, any segment that is no frame header, a marker that stands alone, and a frame header
      of the least length, byte by byte. */
  lemma SmallJpegIsRead(skip: Byte, frame: Byte, size: seq<Byte>)
    requires frame in {192, 193, 194, 195} && skip !in {192, 193, 194, 195, 216, 217} && |size| == 4
    ensures InfoOf([255, 216] + ([255, skip, 0, 3, 9] + ([255, 217] + ([255, frame, 0, 7, 8] + size))))
            == Success(Info(2, U16(size[2], size[3]), U16(size[0], size[1])))
  {
    var header := [255, frame, 0, 7, 8] + size;
    var segment := [255, skip, 0, 3, 9] + ([255, 217] + header);
    FrameIsRead(frame, size);
    AloneIsSkipped(header);
    SegmentIsSkipped(skip, 9, [255, 217] + header);
    assert ([255, 216] + segment)[2..] == segment;
  }

  lemma FrameIsRead(frame: Byte, size: seq<Byte>)
    requires frame in {192, 193, 194, 195} && |size| == 4
    ensures Scan([255, frame, 0, 7, 8] + size) == Success(Info(2, U16(size[2], size[3]), U16(size[0], size[1])))
  {
    var header := [255, frame, 0, 7, 8] + size;
    assert Halts(header) && U16(header[2], header[3]) == 7;
    assert Scan(header) == Verdict(header);
  }

  lemma AloneIsSkipped(rest: seq<Byte>)
    requires |rest| >= 2
    ensures Scan([255, 217] + rest) == Scan(rest)
  {
    assert ([255, 217] + rest)[2..] == rest;
  }

  lemma SegmentIsSkipped(skip: Byte, payload: Byte, rest: seq<Byte>)
    requires skip !in {192, 193, 194, 195, 216, 217}
    ensures Scan([255, skip, 0, 3, payload] + rest) == Scan(rest)
  {
    var data := [255, skip, 0, 3, payload] + rest;
    assert U16(data[2], data[3]) == 3 && data[5..] == rest;
  }

  /** A PNG, byte by byte: the signature, any eight bytes, then width and height. */
  lemma SmallPngIsRead(chunk: seq<Byte>, w: seq<Byte>, h: seq<Byte>, rest: seq<Byte>)
    requires |chunk| == 8 && |w| == |h| == 4
    ensures InfoOf([137, 80, 78, 71, 13, 10, 26, 10] + chunk + w + h + rest) == Success(Info(1, U32(w), U32(h)))
  {
    var data := [137, 80, 78, 71, 13, 10, 26, 10] + chunk + w + h + rest;
    assert data[16..20] == w && data[20..24] == h;
  }

  /** The three ways a JPEG is refused, at the first element that cannot be skipped. */
  lemma RefusalIsExact(data: seq<Byte>) returns (elements: seq<Skipped>, rest: seq<Byte>)
    requires JPEG_START <= data
    ensures Halts(rest) && data[2..] == EncodeAll(elements) + rest
    ensures InfoOf(data) == Failure(Unsupported) <==> |rest| < 4
    ensures InfoOf(data) == Failure(InvalidMarkerStream) <==> |rest| >= 4 && rest[0] != 0xff
    ensures InfoOf(data) == Failure(TruncatedSegment) <==>
            |rest| >= 4 && rest[0] == 0xff && !(2 <= U16(rest[2], rest[3]) <= |rest| - 2)
    ensures InfoOf(data) == Failure(InvalidFrameHeader) <==>
            && |rest| >= 4 && rest[0] == 0xff && FrameMarker(rest[1])
            && 2 <= U16(rest[2], rest[3]) <= |rest| - 2 && U16(rest[2], rest[3]) < 7
  {
    assert data[0] == 0xff;
    elements, rest := Decompose(data[2..]);
  }
}
