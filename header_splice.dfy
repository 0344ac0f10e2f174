/** The header splicer (`updateImageHead`): re-scan the freshly encoded JPEG to
    find where its own metadata header ends, and build SOI ++ captured header
    ++ the encoded bytes from that point on. */
module HeaderSplice {
  import opened Results
  import opened Bytes
  import opened JpegScan

  /** Where the encoded body starts: after SOI and the buffer's own `imageHead`
      when it has one, else right after SOI. None when re-scanning the buffer
      raises: a RangeError from the EXIF reader, or a TypeError when `_parse`
      returns nothing for a buffer under 6 bytes. */
  function BodyOffset(buffer: seq<Byte>): (b: Option<nat>)
    ensures b.Some? ==> 2 <= b.value <= |buffer|
  {
    match ParseResult(buffer)
    case Ok(Some(m)) => Some(if m.imageHead.Some? then 2 + |m.imageHead.value| else 2)
    case _ => None
  }

  /** The bytes `updateImageHead` returns, or None when it raises. */
  function Spliced(buffer: seq<Byte>, head: seq<Byte>): (out: Option<seq<Byte>>)
    ensures out.Some? <==> BodyOffset(buffer).Some?
    ensures out.Some? ==>
              && |out.value| == |head| + 2 + |buffer| - BodyOffset(buffer).value
              && out.value[..2] == [0xFF, 0xD8]
              && out.value[2..2 + |head|] == head
              && out.value[2 + |head|..] == buffer[BodyOffset(buffer).value..]
  {
    match BodyOffset(buffer)
    case None => None
    case Some(b) => Some([0xFF, 0xD8] + head + buffer[b..])
  }

  /** The layout of the output: SOI, then exactly the captured header, then the
      encoded buffer from its body offset, which is its own metadata run's end
      e when e > 6 and a SOI is there, and 2 otherwise; its length is
      |head| + 2 + |buffer| - bodyOffset. It fails exactly when re-scanning fails. */
  lemma SplicedLayout(buffer: seq<Byte>, head: seq<Byte>, e: nat)
    requires MetadataRun(buffer, 2, e) && StopsAt(buffer, e)
    ensures Spliced(buffer, head).None? <==> ParseResult(buffer).RangeError? || ParseResult(buffer) == Ok(None)
    ensures Spliced(buffer, head).Some? ==>
              var out, b := Spliced(buffer, head).value, BodyOffset(buffer).value;
              && b == (if e > 6 && buffer[0] == 0xFF && buffer[1] == 0xD8 then e else 2)
              && |out| == |head| + 2 + |buffer| - b
              && out[..2] == [0xFF, 0xD8]
              && out[2..2 + |head|] == head
              && out[2 + |head|..] == buffer[b..]
  {
    ParseContract(buffer, e);
  }

  /** Uint8Array.prototype.set: copy src into dst starting at `at`. */
  method CopyInto(dst: array<Byte>, src: seq<Byte>, at: nat)
    requires at + |src| <= dst.Length
    modifies dst
    ensures dst[..] == old(dst[..at]) + src + old(dst[at + |src|..])
  {
    for i := 0 to |src|
      invariant forall k :: 0 <= k < at ==> dst[k] == old(dst[k])
      invariant forall k :: 0 <= k < i ==> dst[at + k] == src[k]
      invariant forall k :: at + i <= k < dst.Length ==> dst[k] == old(dst[k])
    {
      dst[at + i] := src[i];
    }
    assert dst[..] == old(dst[..at]) + src + old(dst[at + |src|..]) by {
      forall k | 0 <= k < dst.Length
        ensures dst[..][k] == (old(dst[..at]) + src + old(dst[at + |src|..]))[k]
      {
        if k >= at && k < at + |src| {
          assert dst[at + (k - at)] == src[k - at];
        }
      }
    }
  }

  /** `updateImageHead`: allocate the output, write SOI, then copy the header
      and the body in. */
  method UpdateImageHead(buffer: seq<Byte>, head: seq<Byte>) returns (out: Option<array<Byte>>)
    ensures out.Some? <==> Spliced(buffer, head).Some?
    ensures out.Some? ==> fresh(out.value) && out.value[..] == Spliced(buffer, head).value
  {
    var data := Parse(buffer);
    if data.RangeError? || data.value.None? {
      return None;
    }
    var bodyOffset := 2;
    if data.value.value.imageHead.Some? {
      bodyOffset := bodyOffset + |data.value.value.imageHead.value|;
    }
    assert BodyOffset(buffer) == Some(bodyOffset);
    var buf2 := buffer[bodyOffset..];
    var buf1 := new Byte[|head| + 2 + |buf2|];
    buf1[0] := 0xFF;
    buf1[1] := 0xD8;
    ghost var soi := buf1[..];
    assert soi[..2] == [0xFF, 0xD8];
    CopyInto(buf1, head, 2);
    ghost var headed := buf1[..];
    assert headed[..|head| + 2] == [0xFF, 0xD8] + head by {
      assert headed == soi[..2] + head + soi[2 + |head|..];
    }
    CopyInto(buf1, buf2, |head| + 2);
    assert buf1[..] == headed[..|head| + 2] + buf2 + headed[buf1.Length..];
    assert buf1[..] == [0xFF, 0xD8] + head + buf2;
    return Some(buf1);
  }
}
