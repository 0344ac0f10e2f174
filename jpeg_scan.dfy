/** The JPEG marker-segment scanner (`_parse`): from offset 2, right after the
    SOI marker, walk the leading APPn (0xFFE0..0xFFEF) and COM (0xFFFE) marker
    segments (ITU-T T.81 | ISO/IEC 10918-1, Table B.1 and section B.1.1.4:
    each is a big-endian marker followed by a big-endian length that counts
    itself but not the marker), hand every APP1 payload to the EXIF reader, and
    capture as `imageHead` the bytes from offset 2 to where the scan stops (the
    first marker that is not APPn or COM, a segment running past the buffer, or
    four or fewer bytes left), when that is past offset 6. */
module JpegScan {
  import opened Results
  import opened Bytes
  import opened Exif

  const APP0: nat := 0xFFE0
  const APP1: nat := 0xFFE1
  const APP15: nat := 0xFFEF
  const COM: nat := 0xFFFE
  /** The caller hands the scanner only this many leading bytes of the file. */
  const MAX_METADATA_SIZE: nat := 262144

  predicate IsMetadataMarker(marker: nat)
  {
    APP0 <= marker <= APP15 || marker == COM
  }

  /** The result object of `_parse`: `orientation` is present once an APP1 has
      been met (holding the reader's `false` or number), `imageHead` once the
      metadata run reaches past offset 6. */
  datatype Metas = Metas(orientation: Option<ExifValue>, imageHead: Option<seq<Byte>>)

  /** The loop's variables: the current offset and the orientation read so far. */
  datatype ScanState = ScanState(offset: nat, orientation: Option<ExifValue>)

  /** Bytes the segment at o occupies, its marker included: the length field plus two. */
  function SegmentSize(buf: seq<Byte>, o: nat): nat
    requires o + 4 <= |buf|
  {
    Uint16(buf, o + 2, false) + 2
  }

  /** The scan loop from offset o: it runs while o < |buf| - 4 and the marker
      at o is APPn or COM; an APP1's payload is read for its orientation before
      the segment's length is checked; a segment running past the buffer ends
      the loop at its own offset. */
  function ScanSegments(buf: seq<Byte>, o: nat, orientation: Option<ExifValue>): (r: Read<ScanState>)
    requires o <= |buf|
    ensures r.Ok? ==> o <= r.value.offset <= |buf|
    decreases |buf| - o
  {
    if o + 4 >= |buf| then Ok(ScanState(o, orientation))
    else
      var marker := Uint16(buf, o, false);
      if !IsMetadataMarker(marker) then Ok(ScanState(o, orientation))
      else if marker == APP1 && ReadOrientation(buf, o + 4).RangeError? then RangeError
      else
        var orientation' := if marker == APP1 then Some(ReadOrientation(buf, o + 4).value) else orientation;
        if o + SegmentSize(buf, o) > |buf| then Ok(ScanState(o, orientation'))
        else ScanSegments(buf, o + SegmentSize(buf, o), orientation')
  }

  /** What `_parse` returns: nothing for fewer than 6 bytes, an empty object
      without the SOI marker, otherwise the orientation and `imageHead`; or the
      RangeError the EXIF reader raised. */
  function ParseResult(buf: seq<Byte>): (r: Read<Option<Metas>>)
    ensures r.Ok? && r.value.Some? && r.value.value.imageHead.Some? ==>
              var head := r.value.value.imageHead.value;
              && 6 <= |buf| && buf[0] == 0xFF && buf[1] == 0xD8
              && 4 < |head| <= |buf| - 2
              && head == buf[2..2 + |head|]
    ensures r.Ok? && r.value.Some? && r.value.value.orientation.Some? ==> 6 <= |buf| && buf[0] == 0xFF && buf[1] == 0xD8
  {
    if |buf| < 6 then Ok(None)
    else if buf[0] != 0xFF || buf[1] != 0xD8 then Ok(Some(Metas(None, None)))
    else
      match ScanSegments(buf, 2, None)
      case RangeError => RangeError
      case Ok(s) => Ok(Some(Metas(s.orientation, if s.offset > 6 then Some(buf[2..s.offset]) else None)))
  }

  /** `_parse`. */
  method Parse(buffer: seq<Byte>) returns (r: Read<Option<Metas>>)
    ensures r == ParseResult(buffer)
  {
    if |buffer| < 6 {
      return Ok(None);
    }
    var offset := 2;
    var maxOffset := |buffer| - 4;
    if buffer[0] != 0xFF || buffer[1] != 0xD8 {
      return Ok(Some(Metas(None, None)));
    }
    // The source tests the SOI word a second time here; after the check above it always holds.
    var orientation: Option<ExifValue> := None;
    while offset < maxOffset
      invariant 2 <= offset <= |buffer|
      invariant ScanSegments(buffer, 2, None) == ScanSegments(buffer, offset, orientation)
      decreases |buffer| - offset
    {
      var markerBytes := Uint16(buffer, offset, false);
      if IsMetadataMarker(markerBytes) {
        if markerBytes == APP1 {
          var read := ReadOrientationExif(buffer, offset + 4);
          if read.RangeError? {
            return RangeError;
          }
          orientation := Some(read.value);
        }
        var markerLength := Uint16(buffer, offset + 2, false) + 2;
        if offset + markerLength > |buffer| {
          break;
        }
        offset := offset + markerLength;
      } else {
        break;
      }
    }
    assert ScanSegments(buffer, 2, None) == Ok(ScanState(offset, orientation));
    var imageHead := if offset > 6 then Some(buffer[2..offset]) else None;
    return Ok(Some(Metas(orientation, imageHead)));
  }

  /** The scan stops at e: the loop guard fails, the marker there is not APPn
      or COM, or the segment there runs past the buffer. */
  predicate StopsAt(buf: seq<Byte>, e: nat)
  {
    e + 4 >= |buf| || !IsMetadataMarker(Uint16(buf, e, false)) || e + SegmentSize(buf, e) > |buf|
  }

  /** buf[o..e] is a run of complete APPn/COM segments, laid end to end, each
      starting where the loop guard still holds. */
  predicate MetadataRun(buf: seq<Byte>, o: nat, e: nat)
    ensures MetadataRun(buf, o, e) ==> o <= e <= |buf|
    decreases e - o
  {
    (o == e && e <= |buf|)
    || (&& o < e
        && o + 4 < |buf|
        && IsMetadataMarker(Uint16(buf, o, false))
        && o + SegmentSize(buf, o) <= e
        && MetadataRun(buf, o + SegmentSize(buf, o), e))
  }

  /** Where a scan ends: the end of the run of metadata segments from o, and a
      place the run cannot be extended. */
  lemma {:induction false} ScanEndsWhereRunEnds(buf: seq<Byte>, o: nat, orientation: Option<ExifValue>)
    requires o <= |buf|
    requires ScanSegments(buf, o, orientation).Ok?
    ensures MetadataRun(buf, o, ScanSegments(buf, o, orientation).value.offset)
    ensures StopsAt(buf, ScanSegments(buf, o, orientation).value.offset)
    decreases |buf| - o
  {
    if o + 4 < |buf| && IsMetadataMarker(Uint16(buf, o, false)) && o + SegmentSize(buf, o) <= |buf| {
      var marker := Uint16(buf, o, false);
      var orientation' := if marker == APP1 then Some(ReadOrientation(buf, o + 4).value) else orientation;
      ScanEndsWhereRunEnds(buf, o + SegmentSize(buf, o), orientation');
    }
  }

  /** The run of metadata segments from o has exactly one end: so the two
      facts above pin the scan's final offset down completely. */
  lemma {:induction false} RunEndIsUnique(buf: seq<Byte>, o: nat, e1: nat, e2: nat)
    requires MetadataRun(buf, o, e1) && StopsAt(buf, e1)
    requires MetadataRun(buf, o, e2) && StopsAt(buf, e2)
    ensures e1 == e2
    decreases e1 - o
  {
    if o != e1 && o != e2 {
      RunEndIsUnique(buf, o + SegmentSize(buf, o), e1, e2);
    }
  }

  /** The scan from o to its end e hands the payload of the segment at p to the
      EXIF reader: p is on the run, the loop guard holds there and its marker is APP1. */
  predicate ReaderCalledAt(buf: seq<Byte>, o: nat, p: nat, e: nat)
  {
    && MetadataRun(buf, o, p)
    && MetadataRun(buf, p, e)
    && p + 4 < |buf|
    && Uint16(buf, p, false) == APP1
  }

  /** Every scan start has a run end: following complete APPn/COM segments
      from o always reaches a place where the scan stops. So the run end that
      the lemmas below take as a parameter exists for every buffer, including
      one on which the scan raises. */
  lemma {:induction false} RunEndExists(buf: seq<Byte>, o: nat)
    requires o <= |buf|
    ensures exists e: nat :: MetadataRun(buf, o, e) && StopsAt(buf, e)
    decreases |buf| - o
  {
    if StopsAt(buf, o) {
      assert MetadataRun(buf, o, o);
    } else {
      var next := o + SegmentSize(buf, o);
      RunEndExists(buf, next);
      var e: nat :| MetadataRun(buf, next, e) && StopsAt(buf, e);
      assert MetadataRun(buf, o, e);
    }
  }

  /** A reader call on the run from the next segment is one on the run from o too. */
  lemma ReaderCallFromNext(buf: seq<Byte>, o: nat, q: nat, e: nat)
    requires o + 4 < |buf| && IsMetadataMarker(Uint16(buf, o, false)) && o + SegmentSize(buf, o) <= |buf|
    requires ReaderCalledAt(buf, o + SegmentSize(buf, o), q, e)
    ensures ReaderCalledAt(buf, o, q, e)
  {
  }

  /** A scan that meets no APP1 leaves the orientation it started with. */
  lemma {:induction false} ScanWithoutApp1(buf: seq<Byte>, o: nat, orientation: Option<ExifValue>)
    requires o <= |buf|
    requires ScanSegments(buf, o, orientation).Ok?
    ensures var e := ScanSegments(buf, o, orientation).value.offset;
            (forall q :: o <= q <= e ==> !ReaderCalledAt(buf, o, q, e)) ==>
              ScanSegments(buf, o, orientation).value.orientation == orientation
    decreases |buf| - o
  {
    var e := ScanSegments(buf, o, orientation).value.offset;
    ScanEndsWhereRunEnds(buf, o, orientation);
    if o + 4 < |buf| && IsMetadataMarker(Uint16(buf, o, false)) && (forall q :: o <= q <= e ==> !ReaderCalledAt(buf, o, q, e)) {
      var marker := Uint16(buf, o, false);
      if marker == APP1 {
        assert MetadataRun(buf, o, o);
        if o + SegmentSize(buf, o) <= |buf| {
          var next := o + SegmentSize(buf, o);
          var orientation' := Some(ReadOrientation(buf, o + 4).value);
          ScanEndsWhereRunEnds(buf, next, orientation');
          assert MetadataRun(buf, o, e);
          assert ReaderCalledAt(buf, o, o, e);
        } else {
          assert ReaderCalledAt(buf, o, o, e);
        }
      } else if o + SegmentSize(buf, o) <= |buf| {
        var next := o + SegmentSize(buf, o);
        forall q | next <= q <= e
          ensures !ReaderCalledAt(buf, next, q, e)
        {
          if ReaderCalledAt(buf, next, q, e) {
            ReaderCallFromNext(buf, o, q, e);
          }
        }
        ScanWithoutApp1(buf, next, orientation);
      }
    }
  }

  /** Every APP1 the scan meets overwrites the orientation, so the last one wins:
      if p is the last offset of the run where the reader is called, the scan's
      orientation is what the reader returned there (which is not a RangeError). */
  lemma {:induction false} ScanLastApp1Wins(buf: seq<Byte>, o: nat, orientation: Option<ExifValue>, p: nat)
    requires o <= |buf|
    requires ScanSegments(buf, o, orientation).Ok?
    ensures var e := ScanSegments(buf, o, orientation).value.offset;
            ReaderCalledAt(buf, o, p, e) && (forall q :: p < q <= e ==> !ReaderCalledAt(buf, o, q, e)) ==>
              && ReadOrientation(buf, p + 4).Ok?
              && ScanSegments(buf, o, orientation).value.orientation == Some(ReadOrientation(buf, p + 4).value)
    decreases |buf| - o
  {
    var e := ScanSegments(buf, o, orientation).value.offset;
    ScanEndsWhereRunEnds(buf, o, orientation);
    if ReaderCalledAt(buf, o, p, e) && (forall q :: p < q <= e ==> !ReaderCalledAt(buf, o, q, e)) {
      assert o + 4 < |buf| && IsMetadataMarker(Uint16(buf, o, false));
      var marker := Uint16(buf, o, false);
      var orientation' := if marker == APP1 then Some(ReadOrientation(buf, o + 4).value) else orientation;
      if o + SegmentSize(buf, o) > |buf| {
        assert p == o;
      } else {
        var next := o + SegmentSize(buf, o);
        assert ScanSegments(buf, o, orientation) == ScanSegments(buf, next, orientation');
        forall q | p < q <= e
          ensures !ReaderCalledAt(buf, next, q, e)
        {
          if ReaderCalledAt(buf, next, q, e) {
            ReaderCallFromNext(buf, o, q, e);
          }
        }
        if p == o {
          forall q | next <= q <= e
            ensures !ReaderCalledAt(buf, next, q, e)
          {
          }
          ScanWithoutApp1(buf, next, orientation');
        } else {
          assert MetadataRun(buf, next, p);
          ScanLastApp1Wins(buf, next, orientation', p);
        }
      }
    }
  }

  /** When the scan raises: exactly when the EXIF reader raises at one of the
      APP1 segments the scan hands to it, the last one included, which the loop
      reads before it checks that segment's length. */
  lemma {:induction false} ScanRaisesExactly(buf: seq<Byte>, o: nat, orientation: Option<ExifValue>, e: nat)
    requires MetadataRun(buf, o, e) && StopsAt(buf, e)
    ensures ScanSegments(buf, o, orientation).RangeError? <==>
              exists p: nat :: ReaderCalledAt(buf, o, p, e) && ReadOrientation(buf, p + 4).RangeError?
    decreases e - o
  {
    var raisesHere := o + 4 < |buf| && Uint16(buf, o, false) == APP1 && ReadOrientation(buf, o + 4).RangeError?;
    if raisesHere {
      assert MetadataRun(buf, o, o);
      assert ReaderCalledAt(buf, o, o, e);
    } else if o == e {
      forall p: nat | ReaderCalledAt(buf, o, p, e)
        ensures ReadOrientation(buf, p + 4).Ok?
      {
        assert p == o;
      }
    } else {
      var marker := Uint16(buf, o, false);
      var next := o + SegmentSize(buf, o);
      var orientation' := if marker == APP1 then Some(ReadOrientation(buf, o + 4).value) else orientation;
      assert ScanSegments(buf, o, orientation) == ScanSegments(buf, next, orientation');
      ScanRaisesExactly(buf, next, orientation', e);
      forall p: nat | ReaderCalledAt(buf, next, p, e)
        ensures ReaderCalledAt(buf, o, p, e)
      {
        ReaderCallFromNext(buf, o, p, e);
      }
      forall p: nat | ReaderCalledAt(buf, o, p, e) && ReadOrientation(buf, p + 4).RangeError?
        ensures ReaderCalledAt(buf, next, p, e)
      {
        assert p != o;
      }
    }
  }

  /** `_parse`'s contract, stated without the loop: fewer than 6 bytes give
      nothing; a buffer without SOI gives an empty object; otherwise, for the
      end e of the metadata run from offset 2 (which `RunEndExists` provides
      for every buffer), `_parse` raises exactly when the reader raises at an
      APP1 on the run; when it does not, `imageHead` is exactly bytes [2, e)
      and is present only when e > 6, and the orientation is that read at the
      last APP1 of the run, or absent when the run meets no APP1. */
  lemma ParseContract(buf: seq<Byte>, e: nat)
    ensures |buf| < 6 ==> ParseResult(buf) == Ok(None)
    ensures |buf| >= 6 && (buf[0] != 0xFF || buf[1] != 0xD8) ==> ParseResult(buf) == Ok(Some(Metas(None, None)))
    ensures |buf| >= 6 && buf[0] == 0xFF && buf[1] == 0xD8 && MetadataRun(buf, 2, e) && StopsAt(buf, e) ==>
              (ParseResult(buf).RangeError? <==>
                 exists p: nat :: ReaderCalledAt(buf, 2, p, e) && ReadOrientation(buf, p + 4).RangeError?)
    ensures |buf| >= 6 && buf[0] == 0xFF && buf[1] == 0xD8 && MetadataRun(buf, 2, e) && StopsAt(buf, e) && ParseResult(buf).Ok? ==>
              && ParseResult(buf).value.Some?
              && ParseResult(buf).value.value.imageHead == (if e > 6 then Some(buf[2..e]) else None)
              && ((forall q :: 2 <= q <= e ==> !ReaderCalledAt(buf, 2, q, e)) ==>
                    ParseResult(buf).value.value.orientation == None)
              && (forall p: nat :: ReaderCalledAt(buf, 2, p, e) && (forall q :: p < q <= e ==> !ReaderCalledAt(buf, 2, q, e)) ==>
                    ReadOrientation(buf, p + 4).Ok? &&
                    ParseResult(buf).value.value.orientation == Some(ReadOrientation(buf, p + 4).value))
  {
    if |buf| >= 6 && buf[0] == 0xFF && buf[1] == 0xD8 && MetadataRun(buf, 2, e) && StopsAt(buf, e) {
      ScanRaisesExactly(buf, 2, None, e);
    }
    if |buf| >= 6 && buf[0] == 0xFF && buf[1] == 0xD8 && MetadataRun(buf, 2, e) && StopsAt(buf, e) && ParseResult(buf).Ok? {
      ScanEndsWhereRunEnds(buf, 2, None);
      RunEndIsUnique(buf, 2, e, ScanSegments(buf, 2, None).value.offset);
      ScanWithoutApp1(buf, 2, None);
      forall p: nat | ReaderCalledAt(buf, 2, p, e) && (forall q :: p < q <= e ==> !ReaderCalledAt(buf, 2, q, e))
        ensures ReadOrientation(buf, p + 4).Ok?
        ensures ParseResult(buf).value.value.orientation == Some(ReadOrientation(buf, p + 4).value)
      {
        ScanLastApp1Wins(buf, 2, None, p);
      }
    }
  }

  /** The prefix of the file the caller hands to `_parse`. */
  function MetadataPrefix(file: seq<Byte>): (prefix: seq<Byte>)
    ensures |prefix| == if |file| <= MAX_METADATA_SIZE then |file| else MAX_METADATA_SIZE
    ensures prefix <= file
  {
    if |file| <= MAX_METADATA_SIZE then file else file[..MAX_METADATA_SIZE]
  }

  /** Parsing the capped prefix captures a header that is an exact slice of the
      file itself, starting right after SOI and ending inside the first 262,144 bytes. */
  lemma CappedHeaderIsFileSlice(file: seq<Byte>)
    ensures var r := ParseResult(MetadataPrefix(file));
            r.Ok? && r.value.Some? && r.value.value.imageHead.Some? ==>
              var head := r.value.value.imageHead.value;
              && 4 < |head| <= MAX_METADATA_SIZE - 2
              && head == file[2..2 + |head|]
  {
  }

  /** SOI, one APP1 segment (length 34) holding `ExifPayload(v, little)`, then
      the start of a start-of-scan (0xFFDA) segment. */
  function ExifJpeg(v: nat, little: bool): (s: seq<Byte>)
    requires v < 0x1_0000
    ensures |s| == 43
  {
    [0xFF, 0xD8, 0xFF, 0xE1, 0x00, 0x22] + ExifPayload(v, little) + [0xFF, 0xDA, 0x00, 0x02, 0x00]
  }

  /** For any orientation value, in either byte order, the scan reports that
      value and captures the APP1 segment as the header, stopping at SOS. */
  lemma ParsesExifJpeg(v: nat, little: bool)
    requires v < 0x1_0000
    ensures ParseResult(ExifJpeg(v, little)) == Ok(Some(Metas(Some(Orientation(v)), Some(ExifJpeg(v, little)[2..38]))))
  {
    var buf := ExifJpeg(v, little);
    var prefix := [0xFF, 0xD8, 0xFF, 0xE1, 0x00, 0x22];
    var suffix := [0xFF, 0xDA, 0x00, 0x02, 0x00];
    assert buf[..6] == prefix && buf[38..] == suffix;
    ReadsEmbeddedOrientation(prefix, v, little, suffix);
    assert ReadOrientation(buf, 6) == Ok(Orientation(v));
    assert Uint16(buf, 2, false) == APP1 by {
      assert buf[2] == 0xFF && buf[3] == 0xE1;
    }
    assert SegmentSize(buf, 2) == 36 by {
      assert buf[4] == 0x00 && buf[5] == 0x22;
    }
    assert ScanSegments(buf, 2, None) == ScanSegments(buf, 38, Some(Orientation(v)));
    assert Uint16(buf, 38, false) == 0xFFDA by {
      assert buf[38] == 0xFF && buf[39] == 0xDA;
    }
    assert ScanSegments(buf, 38, Some(Orientation(v))) == Ok(ScanState(38, Some(Orientation(v))));
  }
}
