/** Bytes and the multi-byte reads of a DataView (getUint16, getUint32), in either byte order. */
module Bytes {

  type Byte = b: int | 0 <= b < 256

  /** DataView.getUint16(i, little): big-endian unless `little` is set. */
  function Uint16(s: seq<Byte>, i: nat, little: bool): (v: nat)
    requires i + 2 <= |s|
    ensures v < 0x1_0000
  {
    var b0, b1: int := s[i], s[i + 1];
    if little then b0 + b1 * 0x100 else b0 * 0x100 + b1
  }

  /** DataView.getUint32(i, little). */
  function Uint32(s: seq<Byte>, i: nat, little: bool): (v: nat)
    requires i + 4 <= |s|
    ensures v < 0x1_0000_0000
  {
    var b0, b1, b2, b3: int := s[i], s[i + 1], s[i + 2], s[i + 3];
    if little then b0 + b1 * 0x100 + b2 * 0x1_0000 + b3 * 0x100_0000
    else b0 * 0x100_0000 + b1 * 0x1_0000 + b2 * 0x100 + b3
  }

  /** The two bytes that DataView.setUint16(_, v, little) would write. */
  function EncodeUint16(v: nat, little: bool): (s: seq<Byte>)
    requires v < 0x1_0000
  {
    if little then [v % 0x100, v / 0x100] else [v / 0x100, v % 0x100]
  }

  /** Reading back what was encoded, wherever it sits in a buffer, gives the value. */
  lemma Uint16OfEncoded(prefix: seq<Byte>, v: nat, little: bool, suffix: seq<Byte>)
    requires v < 0x1_0000
    ensures Uint16(prefix + EncodeUint16(v, little) + suffix, |prefix|, little) == v
  {
    var s := prefix + EncodeUint16(v, little) + suffix;
    assert s[|prefix|] == EncodeUint16(v, little)[0];
    assert s[|prefix| + 1] == EncodeUint16(v, little)[1];
  }

  /** A read inside a window of the buffer sees the window's own bytes. */
  lemma Uint16InWindow(s: seq<Byte>, k: nat, w: seq<Byte>, i: nat, little: bool)
    requires k + |w| <= |s| && s[k..k + |w|] == w && i + 2 <= |w|
    ensures Uint16(s, k + i, little) == Uint16(w, i, little)
  {
    assert s[k + i] == w[i] && s[k + i + 1] == w[i + 1];
  }

  lemma Uint32InWindow(s: seq<Byte>, k: nat, w: seq<Byte>, i: nat, little: bool)
    requires k + |w| <= |s| && s[k..k + |w|] == w && i + 4 <= |w|
    ensures Uint32(s, k + i, little) == Uint32(w, i, little)
  {
    assert s[k + i] == w[i] && s[k + i + 1] == w[i + 1];
    assert s[k + i + 2] == w[i + 2] && s[k + i + 3] == w[i + 3];
  }
}
