/** The EXIF orientation reader: given the byte offset of an APP1 segment's
    payload, check the "Exif" identifier and the TIFF header, then walk the
    12-byte entries of IFD0 for the Orientation tag.  Every multi-byte read goes
    through a DataView, so a read past the end of the buffer raises RangeError;
    the model makes that an explicit `RangeError` outcome at the exact read
    where it would be raised. */
module Exif {
  import opened Results
  import opened Bytes

  /** What the reader returns: `false` when the data is not valid EXIF/TIFF,
      otherwise the orientation number (1 when IFD0 has no Orientation entry). */
  datatype ExifValue = NotExif | Orientation(value: nat)

  /** "Exif" */
  const EXIF_ID: seq<Byte> := [0x45, 0x78, 0x69, 0x66]
  /** "II": Intel, little-endian byte order. */
  const LITTLE_ENDIAN_MARK: nat := 0x4949
  /** "MM": Motorola, big-endian byte order. */
  const BIG_ENDIAN_MARK: nat := 0x4D4D
  const TIFF_MAGIC: nat := 0x002A
  /** Tag 274. The source compares against the string '0x0112' with `==`, which
      converts it to this number. */
  const ORIENTATION_TAG: nat := 0x0112
  const IFD_ENTRY_SIZE: nat := 12

  /** Offset of the TIFF header: after "Exif" and two padding bytes. */
  function TiffOffset(start: nat): nat { start + 6 }

  /** Offset of IFD entry i in a directory starting at dirStart (after its 2-byte count). */
  function EntryOffset(dirStart: nat, i: nat): nat { dirStart + 2 + IFD_ENTRY_SIZE * i }

  /** The reader's state after the entry loop has processed entries 0 .. n-1:
      the value of the last Orientation entry among them, 1 if none, or the
      RangeError raised by the first out-of-range read. */
  function EntriesOrientation(buf: seq<Byte>, little: bool, dirStart: nat, n: nat): (r: Read<ExifValue>)
    ensures r.Ok? ==> r.value.Orientation?
  {
    if n == 0 then Ok(Orientation(1))
    else
      var before := EntriesOrientation(buf, little, dirStart, n - 1);
      var entry := EntryOffset(dirStart, n - 1);
      if before.RangeError? || entry + 2 > |buf| then RangeError
      else if Uint16(buf, entry, little) != ORIENTATION_TAG then before
      else if entry + 10 > |buf| then RangeError
      else Ok(Orientation(Uint16(buf, entry + 8, little)))
  }

  /** What the reader returns (or raises) for the payload starting at `start`. */
  function ReadOrientation(buf: seq<Byte>, start: nat): Read<ExifValue>
  {
    var tiff := TiffOffset(start);
    if start + 4 > |buf| then RangeError
    else if buf[start..start + 4] != EXIF_ID then Ok(NotExif)
    else if tiff + 2 > |buf| then RangeError
    else if Uint16(buf, tiff, false) != LITTLE_ENDIAN_MARK && Uint16(buf, tiff, false) != BIG_ENDIAN_MARK then Ok(NotExif)
    else
      var little := Uint16(buf, tiff, false) == LITTLE_ENDIAN_MARK;
      if tiff + 4 > |buf| then RangeError
      else if Uint16(buf, tiff + 2, little) != TIFF_MAGIC then Ok(NotExif)
      else if tiff + 8 > |buf| then RangeError
      else if Uint32(buf, tiff + 4, little) < 8 then Ok(NotExif)
      else
        var dirStart := tiff + Uint32(buf, tiff + 4, little);
        if dirStart + 2 > |buf| then RangeError
        else EntriesOrientation(buf, little, dirStart, Uint16(buf, dirStart, little))
  }

  /** readOrientationEXIFData: the validation steps in the source's order, then
      the loop over IFD0's entries, where a later Orientation entry overwrites an
      earlier one. */
  method ReadOrientationExif(buf: seq<Byte>, start: nat) returns (r: Read<ExifValue>)
    ensures r == ReadOrientation(buf, start)
  {
    if start + 4 > |buf| {
      return RangeError;
    }
    if buf[start..start + 4] != EXIF_ID {
      return Ok(NotExif);
    }
    var tiffOffset := start + 6;
    if tiffOffset + 2 > |buf| {
      return RangeError;
    }
    var little: bool;
    if Uint16(buf, tiffOffset, false) == LITTLE_ENDIAN_MARK {
      little := true;
    } else if Uint16(buf, tiffOffset, false) == BIG_ENDIAN_MARK {
      little := false;
    } else {
      return Ok(NotExif);
    }
    if tiffOffset + 4 > |buf| {
      return RangeError;
    }
    if Uint16(buf, tiffOffset + 2, little) != TIFF_MAGIC {
      return Ok(NotExif);
    }
    if tiffOffset + 8 > |buf| {
      return RangeError;
    }
    var firstIfdOffset := Uint32(buf, tiffOffset + 4, little);
    if firstIfdOffset < 8 {
      return Ok(NotExif);
    }
    var orientation: nat := 1;
    var dirStart := tiffOffset + firstIfdOffset;
    if dirStart + 2 > |buf| {
      return RangeError;
    }
    var entries := Uint16(buf, dirStart, little);
    for i := 0 to entries
      invariant EntriesOrientation(buf, little, dirStart, i) == Ok(Orientation(orientation))
    {
      var entryOffset := dirStart + i * 12 + 2;
      if entryOffset + 2 > |buf| {
        EntriesErrorPersists(buf, little, dirStart, i + 1, entries);
        return RangeError;
      }
      var tag := Uint16(buf, entryOffset, little);
      if tag == ORIENTATION_TAG {
        if entryOffset + 10 > |buf| {
          EntriesErrorPersists(buf, little, dirStart, i + 1, entries);
          return RangeError;
        }
        orientation := Uint16(buf, entryOffset + 8, little);
      }
    }
    return Ok(Orientation(orientation));
  }

  /** Once a read has raised, the rest of the loop never runs. */
  lemma {:induction false} EntriesErrorPersists(buf: seq<Byte>, little: bool, dirStart: nat, i: nat, n: nat)
    requires i <= n
    requires EntriesOrientation(buf, little, dirStart, i) == RangeError
    ensures EntriesOrientation(buf, little, dirStart, n) == RangeError
    decreases n - i
  {
    if i < n {
      EntriesErrorPersists(buf, little, dirStart, i + 1, n);
    }
  }

  /** Entry i of the directory is in the buffer and carries the Orientation tag. */
  predicate IsOrientationEntry(buf: seq<Byte>, little: bool, dirStart: nat, i: nat)
  {
    EntryOffset(dirStart, i) + IFD_ENTRY_SIZE <= |buf| && Uint16(buf, EntryOffset(dirStart, i), little) == ORIENTATION_TAG
  }

  /** The 16-bit value field of entry i (bytes 8..10 of the entry). */
  function EntryValue(buf: seq<Byte>, little: bool, dirStart: nat, i: nat): nat
    requires EntryOffset(dirStart, i) + IFD_ENTRY_SIZE <= |buf|
  {
    Uint16(buf, EntryOffset(dirStart, i) + 8, little)
  }

  /** When the n entries lie inside the buffer, the loop raises nothing and its
      result is the value of the LAST Orientation entry, or 1 if there is none. */
  lemma {:induction false} EntriesLastMatchWins(buf: seq<Byte>, little: bool, dirStart: nat, n: nat)
    requires EntryOffset(dirStart, n) <= |buf|
    ensures EntriesOrientation(buf, little, dirStart, n).Ok?
    ensures (forall i :: 0 <= i < n ==> !IsOrientationEntry(buf, little, dirStart, i)) ==>
              EntriesOrientation(buf, little, dirStart, n) == Ok(Orientation(1))
    ensures forall j :: 0 <= j < n && IsOrientationEntry(buf, little, dirStart, j) &&
                        (forall i :: j < i < n ==> !IsOrientationEntry(buf, little, dirStart, i)) ==>
              EntriesOrientation(buf, little, dirStart, n) == Ok(Orientation(EntryValue(buf, little, dirStart, j)))
  {
    if n > 0 {
      EntriesLastMatchWins(buf, little, dirStart, n - 1);
      var r := EntriesOrientation(buf, little, dirStart, n);
      if IsOrientationEntry(buf, little, dirStart, n - 1) {
        assert r == Ok(Orientation(EntryValue(buf, little, dirStart, n - 1)));
      } else {
        assert r == EntriesOrientation(buf, little, dirStart, n - 1);
      }
    }
  }

  /** The checks the reader makes before it looks at IFD0: the "Exif"
      identifier, a byte-order mark, the TIFF magic number in that byte order,
      and a first-IFD offset of at least 8. */
  predicate ValidTiffHeader(buf: seq<Byte>, start: nat)
  {
    var tiff := TiffOffset(start);
    && tiff + 8 <= |buf|
    && buf[start..start + 4] == EXIF_ID
    && (Uint16(buf, tiff, false) == LITTLE_ENDIAN_MARK || Uint16(buf, tiff, false) == BIG_ENDIAN_MARK)
    && Uint16(buf, tiff + 2, Uint16(buf, tiff, false) == LITTLE_ENDIAN_MARK) == TIFF_MAGIC
    && Uint32(buf, tiff + 4, Uint16(buf, tiff, false) == LITTLE_ENDIAN_MARK) >= 8
  }

  /** Byte order selected by the header's mark. */
  function IsLittleEndian(buf: seq<Byte>, start: nat): bool
    requires TiffOffset(start) + 2 <= |buf|
  {
    Uint16(buf, TiffOffset(start), false) == LITTLE_ENDIAN_MARK
  }

  /** Start of IFD0: the TIFF header's offset plus the first-IFD offset. */
  function IfdStart(buf: seq<Byte>, start: nat): nat
    requires TiffOffset(start) + 8 <= |buf|
  {
    TiffOffset(start) + Uint32(buf, TiffOffset(start) + 4, IsLittleEndian(buf, start))
  }

  /** The reader's validation, both directions: an orientation number comes back
      only for a valid header; a header that lies in the buffer but fails a check
      gives `false`; and for a valid header whose IFD0 lies in the buffer the
      result is the last Orientation entry's value, read in the selected byte
      order, or 1. */
  lemma ReadOrientationValidation(buf: seq<Byte>, start: nat)
    ensures ReadOrientation(buf, start).Ok? && ReadOrientation(buf, start).value.Orientation? ==>
              ValidTiffHeader(buf, start)
    ensures TiffOffset(start) + 8 <= |buf| && !ValidTiffHeader(buf, start) ==>
              ReadOrientation(buf, start) == Ok(NotExif)
    ensures ValidTiffHeader(buf, start) && IfdStart(buf, start) + 2 <= |buf| ==>
              var little, dirStart := IsLittleEndian(buf, start), IfdStart(buf, start);
              var n := Uint16(buf, dirStart, little);
              EntryOffset(dirStart, n) <= |buf| ==>
                && ReadOrientation(buf, start).Ok?
                && ((forall i :: 0 <= i < n ==> !IsOrientationEntry(buf, little, dirStart, i)) ==>
                      ReadOrientation(buf, start) == Ok(Orientation(1)))
                && (forall j :: 0 <= j < n && IsOrientationEntry(buf, little, dirStart, j) &&
                                (forall i :: j < i < n ==> !IsOrientationEntry(buf, little, dirStart, i)) ==>
                      ReadOrientation(buf, start) == Ok(Orientation(EntryValue(buf, little, dirStart, j))))
  {
    if ValidTiffHeader(buf, start) && IfdStart(buf, start) + 2 <= |buf| {
      var little, dirStart := IsLittleEndian(buf, start), IfdStart(buf, start);
      var n := Uint16(buf, dirStart, little);
      if EntryOffset(dirStart, n) <= |buf| {
        assert ReadOrientation(buf, start) == EntriesOrientation(buf, little, dirStart, n);
        EntriesLastMatchWins(buf, little, dirStart, n);
      }
    }
  }

  /** A minimal APP1 payload: "Exif\0\0", a TIFF header in the given byte order
      pointing at IFD0 right after it, and an IFD0 with one Orientation entry
      (type SHORT, count 1) carrying `v`. */
  function ExifPayload(v: nat, little: bool): (s: seq<Byte>)
    requires v < 0x1_0000
    ensures |s| == 32
  {
    EXIF_ID + [0, 0]
    + (if little then [0x49, 0x49] else [0x4D, 0x4D])
    + EncodeUint16(TIFF_MAGIC, little)
    + (if little then [8, 0, 0, 0] else [0, 0, 0, 8])
    + EncodeUint16(1, little)
    + EncodeUint16(ORIENTATION_TAG, little) + EncodeUint16(3, little)
    + (if little then [1, 0, 0, 0] else [0, 0, 0, 1])
    + EncodeUint16(v, little) + [0, 0]
    + [0, 0, 0, 0]
  }

  /** The fields of the payload, read in its own byte order. */
  lemma PayloadFields(v: nat, little: bool)
    requires v < 0x1_0000
    ensures var p := ExifPayload(v, little);
            && p[..4] == EXIF_ID
            && Uint16(p, 6, false) == (if little then LITTLE_ENDIAN_MARK else BIG_ENDIAN_MARK)
            && Uint16(p, 8, little) == TIFF_MAGIC
            && Uint32(p, 10, little) == 8
            && Uint16(p, 14, little) == 1
            && Uint16(p, 16, little) == ORIENTATION_TAG
            && Uint16(p, 24, little) == v
  {
    var p := ExifPayload(v, little);
    Uint16OfEncoded(p[..24], v, little, p[26..]);
    assert p == p[..24] + EncodeUint16(v, little) + p[26..];
  }

  /** A well-formed payload in either byte order, placed anywhere in a buffer,
      reads back exactly the orientation it carries. */
  lemma ReadsEmbeddedOrientation(prefix: seq<Byte>, v: nat, little: bool, suffix: seq<Byte>)
    requires v < 0x1_0000
    ensures ReadOrientation(prefix + ExifPayload(v, little) + suffix, |prefix|) == Ok(Orientation(v))
  {
    var p := ExifPayload(v, little);
    var buf := prefix + p + suffix;
    var k := |prefix|;
    assert buf[k..k + 32] == p;
    PayloadFields(v, little);
    assert buf[k..k + 4] == p[..4];
    Uint16InWindow(buf, k, p, 6, false);
    Uint16InWindow(buf, k, p, 8, little);
    Uint32InWindow(buf, k, p, 10, little);
    Uint16InWindow(buf, k, p, 14, little);
    Uint16InWindow(buf, k, p, 16, little);
    Uint16InWindow(buf, k, p, 24, little);
    ReadsPayloadFields(buf, k, little, v);
  }

  /** The reader on a buffer whose fields at `start` are those of `ExifPayload`:
      identifier, byte-order mark, magic, IFD0 right after the TIFF header, and
      one entry tagged Orientation carrying v. */
  lemma ReadsPayloadFields(buf: seq<Byte>, start: nat, little: bool, v: nat)
    requires start + 32 <= |buf| && buf[start..start + 4] == EXIF_ID
    requires Uint16(buf, start + 6, false) == (if little then LITTLE_ENDIAN_MARK else BIG_ENDIAN_MARK)
    requires Uint16(buf, start + 8, little) == TIFF_MAGIC
    requires Uint32(buf, start + 10, little) == 8
    requires Uint16(buf, start + 14, little) == 1
    requires Uint16(buf, start + 16, little) == ORIENTATION_TAG
    requires Uint16(buf, start + 24, little) == v
    ensures ReadOrientation(buf, start) == Ok(Orientation(v))
  {
    assert EntriesOrientation(buf, little, start + 14, 1) == Ok(Orientation(v));
  }
}
