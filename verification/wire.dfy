/**
 * Fixed-width integers read from and written to byte strings, as Python's
 * `struct` formats `">I"`, `">Q"` and `"<f4"` (the latter as an opaque
 * 32-bit pattern) do.
 */
module Wire {

  type Bytes = seq<bv8>

  function Be32Of(b0: bv8, b1: bv8, b2: bv8, b3: bv8): bv32 {
    (b0 as bv32 << 24) | (b1 as bv32 << 16) | (b2 as bv32 << 8) | (b3 as bv32)
  }

  /** The big-endian unsigned 32-bit word at `off`. */
  function BE32(d: Bytes, off: nat): bv32
    requires off + 4 <= |d|
  {
    Be32Of(d[off], d[off + 1], d[off + 2], d[off + 3])
  }

  /** The four bytes of a little-endian 32-bit value at `off`, as one word. */
  function LE32(d: Bytes, off: nat): bv32
    requires off + 4 <= |d|
  {
    Be32Of(d[off + 3], d[off + 2], d[off + 1], d[off])
  }

  /** The big-endian unsigned 64-bit word at `off`. */
  function BE64(d: Bytes, off: nat): bv64
    requires off + 8 <= |d|
  {
    (BE32(d, off) as bv64 << 32) | (BE32(d, off + 4) as bv64)
  }

  function BE32Bytes(w: bv32): (b: Bytes)
    ensures |b| == 4
  {
    [(w >> 24) as bv8, ((w >> 16) & 0xFF) as bv8, ((w >> 8) & 0xFF) as bv8, (w & 0xFF) as bv8]
  }

  function LE32Bytes(w: bv32): (b: Bytes)
    ensures |b| == 4
  {
    var be := BE32Bytes(w);
    [be[3], be[2], be[1], be[0]]
  }

  function BE64Bytes(w: bv64): (b: Bytes)
    ensures |b| == 8
  {
    BE32Bytes((w >> 32) as bv32) + BE32Bytes((w & 0xFFFF_FFFF) as bv32)
  }

  lemma Be32Bytes(w: bv32)
    ensures var b := BE32Bytes(w); Be32Of(b[0], b[1], b[2], b[3]) == w
  {
  }

  /** Reading a big-endian word where its encoding sits gives the word back. */
  lemma BE32Window(d: Bytes, off: nat, w: bv32)
    requires off + 4 <= |d| && d[off..off + 4] == BE32Bytes(w)
    ensures BE32(d, off) == w
  {
    var b := BE32Bytes(w);
    assert d[off] == b[0] && d[off + 1] == b[1] && d[off + 2] == b[2] && d[off + 3] == b[3] by {
      var win := d[off..off + 4];
      assert win[0] == d[off] && win[1] == d[off + 1] && win[2] == d[off + 2] && win[3] == d[off + 3];
    }
    Be32Bytes(w);
  }

  lemma LE32Window(d: Bytes, off: nat, w: bv32)
    requires off + 4 <= |d| && d[off..off + 4] == LE32Bytes(w)
    ensures LE32(d, off) == w
  {
    var b := BE32Bytes(w);
    assert d[off] == b[3] && d[off + 1] == b[2] && d[off + 2] == b[1] && d[off + 3] == b[0] by {
      var win := d[off..off + 4];
      assert win[0] == d[off] && win[1] == d[off + 1] && win[2] == d[off + 2] && win[3] == d[off + 3];
    }
    Be32Bytes(w);
  }

  lemma Split64(w: bv64)
    ensures ((((w >> 32) as bv32) as bv64) << 32) | (((w & 0xFFFF_FFFF) as bv32) as bv64) == w
  {
  }

  lemma BE64Window(d: Bytes, off: nat, w: bv64)
    requires off + 8 <= |d| && d[off..off + 8] == BE64Bytes(w)
    ensures BE64(d, off) == w
  {
    assert d[off..off + 4] == BE32Bytes((w >> 32) as bv32) by {
      assert d[off..off + 4] == d[off..off + 8][..4];
    }
    assert d[off + 4..off + 8] == BE32Bytes((w & 0xFFFF_FFFF) as bv32) by {
      assert d[off + 4..off + 8] == d[off..off + 8][4..];
    }
    BE32Window(d, off, (w >> 32) as bv32);
    BE32Window(d, off + 4, (w & 0xFFFF_FFFF) as bv32);
    Split64(w);
  }

  /** A big-endian word reads back from wherever it is placed. */
  lemma BE32At(pre: Bytes, w: bv32, post: Bytes)
    ensures |pre| + 4 <= |pre + BE32Bytes(w) + post|
    ensures BE32(pre + BE32Bytes(w) + post, |pre|) == w
  {
    var d := pre + BE32Bytes(w) + post;
    assert d[|pre|..|pre| + 4] == BE32Bytes(w);
    BE32Window(d, |pre|, w);
  }

  lemma LE32At(pre: Bytes, w: bv32, post: Bytes)
    ensures |pre| + 4 <= |pre + LE32Bytes(w) + post|
    ensures LE32(pre + LE32Bytes(w) + post, |pre|) == w
  {
    var d := pre + LE32Bytes(w) + post;
    assert d[|pre|..|pre| + 4] == LE32Bytes(w);
    LE32Window(d, |pre|, w);
  }

  lemma BE64At(pre: Bytes, w: bv64, post: Bytes)
    ensures |pre| + 8 <= |pre + BE64Bytes(w) + post|
    ensures BE64(pre + BE64Bytes(w) + post, |pre|) == w
  {
    var d := pre + BE64Bytes(w) + post;
    assert d[|pre|..|pre| + 8] == BE64Bytes(w);
    BE64Window(d, |pre|, w);
  }

  /** A slice within the first part of a concatenation is a slice of that part. */
  lemma SliceFront(x: Bytes, y: Bytes, i: nat, j: nat)
    requires i <= j <= |x|
    ensures (x + y)[i..j] == x[i..j]
  {
  }

  /** Regrouping a concatenation. */
  lemma Assoc(a: Bytes, b: Bytes, c: Bytes)
    ensures a + b + c == a + (b + c)
  {
  }
}
