/** A document as a file: header, index table, concatenated tables, string pool. */
module DatasheetFile {
  import opened Words
  import opened Datasheet

  // ----- Concatenated tables -----

  function Flat(ts: seq<bytes>): bytes {
    if ts == [] then [] else Flat(ts[..|ts| - 1]) + ts[|ts| - 1]
  }

  // Where table `k` starts among the concatenated tables.
  function Offset(ts: seq<bytes>, k: nat): nat
    requires k <= |ts|
  {
    |Flat(ts[..k])|
  }

  lemma {:induction false} FlatUpdate(ts: seq<bytes>, k: nat, b: bytes)
    requires k < |ts|
    ensures |Flat(ts[k := b])| == |Flat(ts)| - |ts[k]| + |b|
  {
    var us := ts[k := b];
    if k == |ts| - 1 {
      assert us[..k] == ts[..k];
    } else {
      assert us[..|ts| - 1] == ts[..|ts| - 1][k := b];
      FlatUpdate(ts[..|ts| - 1], k, b);
    }
  }

  lemma {:induction false} FlatAt(ts: seq<bytes>, k: nat)
    requires k < |ts|
    ensures Offset(ts, k + 1) == Offset(ts, k) + |ts[k]| <= |Flat(ts)|
    ensures Flat(ts)[Offset(ts, k)..Offset(ts, k + 1)] == ts[k]
  {
    assert ts[..k + 1][..k] == ts[..k];
    if k == |ts| - 1 {
      assert ts[..k + 1] == ts;
    } else {
      var us := ts[..|ts| - 1];
      FlatAt(us, k);
      assert us[..k] == ts[..k] && us[..k + 1] == ts[..k + 1];
    }
  }

  lemma {:induction false} OffsetWithin(ts: seq<bytes>, k: nat)
    requires k <= |ts|
    ensures Offset(ts, k) <= |Flat(ts)|
  {
    if k == |ts| {
      assert ts[..k] == ts;
    } else {
      FlatAt(ts, k);
    }
  }

  ghost function OffsetWord(ts: seq<bytes>, k: nat): word
    requires k <= |ts| && |Flat(ts)| < WORD
  {
    OffsetWithin(ts, k);
    Offset(ts, k)
  }

  // The index table of tables written in their own order.
  ghost function Offsets(ts: seq<bytes>): (index: seq<word>)
    requires |Flat(ts)| < WORD
    ensures |index| == |ts|
    ensures forall k {:trigger index[k]} | 0 <= k < |ts| :: index[k] == Offset(ts, k)
  {
    seq(|ts|, k requires 0 <= k < |ts| => OffsetWord(ts, k))
  }

  // ----- Files -----

  lemma {:induction false} BodyReads(head: bytes, words: seq<word>, k: nat)
    requires k < |words|
    ensures Unpack(head + PackAll(words), |head| + 4 * k) == words[k]
  {
    var b := head + PackAll(words);
    assert b[|head|..|head| + |PackAll(words)|] == PackAll(words);
    UnpackPackAll(words, k);
    UnpackWithin(PackAll(words), b, 4 * k, |head|);
  }

  lemma {:induction false} HeadReads(x: word, y: word, rest: bytes)
    ensures Unpack(Pack(x) + Pack(y) + rest, 0) == x
    ensures Unpack(Pack(x) + Pack(y) + rest, 4) == y
  {
    var b := Pack(x) + Pack(y) + rest;
    UnpackPack(x);
    UnpackPack(y);
    assert b[0..4] == Pack(x) && b[4..8] == Pack(y);
    UnpackWithin(Pack(x), b, 0, 0);
    UnpackWithin(Pack(y), b, 0, 4);
  }

  ghost function DocOf(tables: seq<bytes>, pool: bytes): Doc {
    Doc(map k: nat | k < |tables| :: tables[k], pool)
  }

  lemma {:induction false} DocOfExtends(ts: seq<bytes>, us: seq<bytes>, p: bytes, q: bytes)
    requires |ts| <= |us| && p <= q
    requires forall k | 0 <= k < |ts| :: ts[k] <= us[k]
    ensures Extends(DocOf(ts, p), DocOf(us, q))
  {
  }

  // An encoded table with nothing after it.
  predicate Exact(b: bytes) {
    8 <= |b| && |b| == BlobSize(Unpack(b, 0), Unpack(b, 4))
  }

  ghost predicate FileIs(v: bytes, index: seq<word>, tables: seq<bytes>, pool: bytes) {
    && 8 + 4 * |index| + |Flat(tables)| < WORD
    && v == Pack(8 + 4 * |index| + |Flat(tables)|) + Pack(|index|) + PackAll(index) + Flat(tables) + pool
  }

  lemma {:induction false} FileIsReads(v: bytes, index: seq<word>, tables: seq<bytes>, pool: bytes)
    requires FileIs(v, index, tables, pool)
    ensures FileShape(v) && TableCount(v) == |index|
    ensures forall k {:trigger IndexEntry(v, k)} | 0 <= k < |index| :: IndexEntry(v, k) == index[k]
    ensures Unpack(v, 0) == 8 + 4 * |index| + |Flat(tables)| && v[Unpack(v, 0)..] == FileDoc(v).pool == pool
    ensures v[8 + 4 * |index|..] == Flat(tables) + pool
  {
    hide Pack;
    hide PackAll;
    hide Unpack;
    hide Flat;
    var n, flat := |index|, Flat(tables);
    var head := Pack(8 + 4 * n + |flat|) + Pack(n);
    assert v == head + (PackAll(index) + flat + pool);
    HeadReads(8 + 4 * n + |flat|, n, PackAll(index) + flat + pool);
    forall k | 0 <= k < n
      ensures Unpack(v, 8 + 4 * k) == index[k]
    {
      BodyReads(head, index, k);
      UnpackWithin(head + PackAll(index), v, 8 + 4 * k, 0);
    }
  }

  // An index entry that is the offset of table `j` makes the file's table `k` start with table `j`.
  lemma {:induction false} FileIsTable(v: bytes, index: seq<word>, tables: seq<bytes>, pool: bytes, k: nat, j: nat)
    requires FileIs(v, index, tables, pool)
    requires k < |index| && j < |tables| && index[k] == Offset(tables, j)
    ensures FileShape(v)
    ensures k in FileDoc(v).tables && tables[j] <= FileDoc(v).tables[k]
  {
    hide FileIs;
    hide Flat;
    hide Unpack;
    FileIsReads(v, index, tables, pool);
    FlatAt(tables, j);
    var h, o := 8 + 4 * |index|, Offset(tables, j);
    assert v[h..][o..o + |tables[j]|] == Flat(tables)[o..o + |tables[j]|];
    assert IndexEntry(v, k) == index[k];
    assert v[h + o..] == v[h..][o..];
  }
}
