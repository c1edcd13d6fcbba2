/** Bytes, the little-endian 32-bit words that `string.pack("<I4")` writes, and what all modules share. */
module Words {
  type byte = x: int | 0 <= x < 256
  type bytes = seq<byte>
  type word = x: int | 0 <= x < 0x1_0000_0000

  const WORD: int := 0x1_0000_0000
  const HALF: int := 0x8000_0000

  lemma Limits()
    ensures HALF == 0x8000_0000 && WORD == 0x1_0000_0000
  {
  }

  datatype Option<+T> = None | Some(value: T)

  predicate Distinct<T(==)>(s: seq<T>) {
    forall i, j | 0 <= i < j < |s| :: s[i] != s[j]
  }

  // The four bytes of `x`, least significant first.
  function Pack(x: word): (b: bytes)
    ensures |b| == 4
  {
    [x % 256, x / 256 % 256, x / 65536 % 256, x / 16777216]
  }

  function Unpack(b: bytes, o: nat): word
    requires o + 4 <= |b|
  {
    b[o] as int + 256 * (b[o + 1] as int) + 65536 * (b[o + 2] as int) + 16777216 * (b[o + 3] as int)
  }

  // `string.pack("<I4I4...", ws)`.
  function PackAll(ws: seq<word>): (b: bytes)
    ensures |b| == 4 * |ws|
  {
    seq(4 * |ws|, k requires 0 <= k < 4 * |ws| => Pack(ws[k / 4])[k % 4])
  }

  // `string.unpack("<I4I4...", b, o)` with `n` words.
  function UnpackAll(b: bytes, o: nat, n: nat): (ws: seq<word>)
    requires o + 4 * n <= |b|
    ensures |ws| == n
  {
    seq(n, i requires 0 <= i < n => Unpack(b, o + 4 * i))
  }

  // "<i4" writes and reads the two's complement word.
  function FromSigned(i: int): word
    requires -HALF <= i < HALF
  {
    if i < 0 then i + WORD else i
  }

  function ToSigned(w: word): (i: int)
    ensures -HALF <= i < HALF && FromSigned(i) == w
  {
    if w >= HALF then w - WORD else w
  }

  lemma UnpackPack(x: word)
    ensures Unpack(Pack(x), 0) == x
  {
    assert x / 65536 == x / 256 / 256 && x / 16777216 == x / 65536 / 256;
  }

  lemma UnpackPackAll(ws: seq<word>, i: nat)
    requires i < |ws|
    ensures Unpack(PackAll(ws), 4 * i) == ws[i]
  {
    var b := PackAll(ws);
    forall j | 0 <= j < 4
      ensures b[4 * i + j] == Pack(ws[i])[j]
    {
      assert (4 * i + j) / 4 == i && (4 * i + j) % 4 == j;
    }
    UnpackPack(ws[i]);
  }

  // A word is read the same wherever its four bytes sit.
  lemma UnpackWithin(a: bytes, b: bytes, o: nat, p: nat)
    requires o + 4 <= |a| && p + |a| <= |b|
    requires b[p..p + |a|] == a
    ensures Unpack(b, p + o) == Unpack(a, o)
  {
    forall j | o <= j < o + 4
      ensures a[j] == b[p + j]
    {
      assert b[p..p + |a|][j] == b[p + j];
    }
  }
}
