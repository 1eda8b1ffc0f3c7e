/** Octets, 32-bit words and the failure-free optional value used by every other module. */
module Bytes {

  datatype Option<+T> = None | Some(value: T)

  type byte = x: int | 0 <= x < 256
  type u32 = x: int | 0 <= x < 0x1_0000_0000

  /** `bytes` occupies `data` from `off` on. */
  ghost predicate At(data: seq<byte>, off: nat, bytes: seq<byte>) {
    off + |bytes| <= |data| && forall k :: 0 <= k < |bytes| ==> bytes[k] == data[off + k]
  }

  /** The four octets `memcpy` stores for a word on a little-endian machine. */
  function Le32(w: u32): (bytes: seq<byte>)
    ensures |bytes| == 4
  {
    var w1 := w / 256;
    var w2 := w1 / 256;
    [w % 256, w1 % 256, w2 % 256, w2 / 256]
  }

  /** The word `memcpy` loads from four octets. */
  function Word(b0: byte, b1: byte, b2: byte, b3: byte): u32 {
    b0 + 256 * (b1 + 256 * (b2 + 256 * b3))
  }

  function WordAt(data: seq<byte>, i: nat): (w: u32)
    requires i + 4 <= |data|
  {
    Word(data[i], data[i + 1], data[i + 2], data[i + 3])
  }

  /** Storing what was loaded gives the octets back. */
  lemma Le32WordAt(data: seq<byte>, i: nat)
    requires i + 4 <= |data|
    ensures At(data, i, Le32(WordAt(data, i)))
  {
    var h: int := data[i + 2] as int + 256 * data[i + 3] as int;
    var g: int := data[i + 1] as int + 256 * h;
    var w := WordAt(data, i);
    assert w == data[i] as int + 256 * g;
    assert w / 256 == g && w % 256 == data[i];
    assert g / 256 == h && g % 256 == data[i + 1];
    assert h / 256 == data[i + 3] && h % 256 == data[i + 2];
  }

  /** Loading what was stored gives the word back. */
  lemma WordAtLe32(data: seq<byte>, i: nat, w: u32)
    requires At(data, i, Le32(w))
    ensures WordAt(data, i) == w
  {
    var s := Le32(w);
    assert s[0] == data[i] && s[1] == data[i + 1] && s[2] == data[i + 2] && s[3] == data[i + 3];
    var w1 := w / 256;
    var w2 := w1 / 256;
    assert w2 == 256 * (w2 / 256) + w2 % 256;
    assert w1 == 256 * w2 + w1 % 256;
  }

  /** Splits an occurrence of `a + b` into its two halves, and joins them again. */
  lemma AtSplit(data: seq<byte>, off: nat, a: seq<byte>, b: seq<byte>)
    ensures At(data, off, a + b) <==> At(data, off, a) && At(data, off + |a|, b)
  {
    if At(data, off, a + b) {
      assert forall k :: 0 <= k < |a| ==> a[k] == (a + b)[k];
      assert forall k :: 0 <= k < |b| ==> b[k] == (a + b)[|a| + k];
    }
  }

  /** An occurrence is a slice. */
  lemma AtSlice(data: seq<byte>, off: nat, bytes: seq<byte>)
    ensures At(data, off, bytes) <==> off + |bytes| <= |data| && data[off..off + |bytes|] == bytes
  {
    if off + |bytes| <= |data| && data[off..off + |bytes|] == bytes {
      assert forall k :: 0 <= k < |bytes| ==> bytes[k] == data[off..off + |bytes|][k];
    }
  }

  lemma AtNothing(data: seq<byte>, off: nat)
    ensures At(data, off, []) <==> off <= |data|
  {}

  lemma AtHeadOf(data: seq<byte>, off: nat, bytes: seq<byte>)
    requires At(data, off, bytes) && bytes != []
    ensures off < |data| && data[off] == bytes[0]
  {}

  lemma AtHead(data: seq<byte>, off: nat, b: byte)
    ensures At(data, off, [b]) <==> off < |data| && data[off] == b
  {
    assert [b][0] == b;
  }

  lemma AtSelf(bytes: seq<byte>)
    ensures At(bytes, 0, bytes)
  {}
}
