/** One sheet with a value of each kind, byte by byte. */
module DatasheetExample {
  import opened Words
  import opened Datasheet
  import opened DatasheetFile
  import opened DatasheetDump
  import opened DatasheetUndump

  // { -2, 1.0, true, false, "ab", {}, k = "ab" }
  const ITEMS: seq<Value> :=
    [Int(-2), Real(0x3F80_0000), Bool(true), Bool(false), Str([97, 98]), Table(0, [], []), Str([97, 98])]
  const KEYS: seq<bytes> := [[107]]
  const SHEET: Value := Table(0, ITEMS, KEYS)

  // As undump gives it: the inner table has number 1.
  const READ_ITEMS: seq<Value> :=
    [Int(-2), Real(0x3F80_0000), Bool(true), Bool(false), Str([97, 98]), Table(1, [], []), Str([97, 98])]
  const READ: Value := Table(0, READ_ITEMS, KEYS)

  const POOL: seq<bytes> := [[97, 98], [107]]

  const OUTER: bytes :=
    [6, 0, 0, 0, 1, 0, 0, 0]                          // six in the array, one under a key
    + [1, 2, 3, 3, 5, 4, 5, 0]                        // the types, and a byte to align
    + [0xFE, 0xFF, 0xFF, 0xFF, 0, 0, 0x80, 0x3F]      // -2 and 1.0
    + [0, 0, 0, 1, 0, 0, 0, 0]                        // true and false
    + [0, 0, 0, 0, 1, 0, 0, 0]                        // the string at 0, table 1
    + [3, 0, 0, 0, 0, 0, 0, 0]                        // the key at 3, the string at 0
  const INNER: bytes := [0, 0, 0, 0, 0, 0, 0, 0]
  const FILE: bytes :=
    [72, 0, 0, 0, 2, 0, 0, 0]                         // where the strings are, and two tables
    + [0, 0, 0, 0, 48, 0, 0, 0]                       // where those are
    + OUTER + INNER
    + [97, 98, 0, 107, 0]

  lemma SheetStrings()
    ensures Strings(SHEET, []) == POOL
  {
    assert StringsUpTo(ITEMS, KEYS, 4, []) == [] by {
      assert StringsUpTo(ITEMS, KEYS, 2, []) == [];
    }
    assert StringsUpTo(ITEMS, KEYS, 6, []) == [[97, 98]] by {
      assert StringsUpTo(ITEMS, KEYS, 5, []) == [[97, 98]];
      assert Strings(ITEMS[5], [[97, 98]]) == [[97, 98]];
    }
  }

  lemma SheetNumbers()
    ensures Number(SHEET, 0) == READ
  {
    assert TablesUpTo(ITEMS, 5) == 0 by {
      assert TablesUpTo(ITEMS, 2) == 0;
      assert TablesUpTo(ITEMS, 4) == 0;
    }
    var n := Number(SHEET, 0);
    NumberItems(SHEET, 0);
    assert n.items[5] == Number(ITEMS[5], 1);
    assert forall i | 0 <= i < 7 :: n.items[i] == READ_ITEMS[i];
    assert n.items == READ_ITEMS;
  }

  lemma SheetTypes()
    ensures TypesOf(READ_ITEMS, 7) == [1, 2, 3, 3, 5, 4, 5]
  {
    assert TypesOf(READ_ITEMS, 3) == [1, 2, 3];
    assert TypesOf(READ_ITEMS, 6) == [1, 2, 3, 3, 5, 4];
  }

  lemma SheetOffsets()
    ensures OffsetIn(POOL, [97, 98]) == 0 && OffsetIn(POOL, [107]) == 3
  {
    assert POOL[..1] == [[97, 98]];
    assert [[97, 98]][..0] == [];
    assert PoolOf([[97, 98]]) == [97, 98, 0];
  }

  lemma SheetWords()
    ensures WordsOf(READ_ITEMS, KEYS, 7, POOL) == [0xFFFF_FFFE, 0x3F80_0000, 0x0100_0000, 0, 0, 1, 3, 0]
  {
    SheetOffsets();
    hide OffsetIn;
    assert WordsOf(READ_ITEMS, KEYS, 3, POOL) == [0xFFFF_FFFE, 0x3F80_0000, 0x0100_0000];
    assert WordsOf(READ_ITEMS, KEYS, 6, POOL) == [0xFFFF_FFFE, 0x3F80_0000, 0x0100_0000, 0, 0, 1];
  }

  lemma PackedTwo(x: word, y: word)
    ensures PackAll([x, y]) == Pack(x) + Pack(y)
  {
    var a, b := PackAll([x, y]), Pack(x) + Pack(y);
    forall k | 0 <= k < 8
      ensures a[k] == b[k]
    {
      assert k >= 4 ==> k / 4 == 1 && k % 4 == k - 4;
    }
  }

  lemma PackedMore(a: seq<word>, b: seq<word>)
    ensures PackAll(a + b) == PackAll(a) + PackAll(b)
  {
    var x, y, n := PackAll(a + b), PackAll(a) + PackAll(b), 4 * |a|;
    forall k | 0 <= k < |x|
      ensures x[k] == y[k]
    {
      if k >= n {
        assert k / 4 == |a| + (k - n) / 4 && k % 4 == (k - n) % 4;
      }
    }
  }

  lemma PackedValues()
    ensures Pack(0xFFFF_FFFE) == [0xFE, 0xFF, 0xFF, 0xFF] && Pack(0x3F80_0000) == [0, 0, 0x80, 0x3F]
    ensures Pack(0x0100_0000) == [0, 0, 0, 1] && Pack(0) == [0, 0, 0, 0] && Pack(1) == [1, 0, 0, 0]
    ensures Pack(2) == [2, 0, 0, 0] && Pack(3) == [3, 0, 0, 0] && Pack(6) == [6, 0, 0, 0]
    ensures Pack(48) == [48, 0, 0, 0] && Pack(72) == [72, 0, 0, 0]
  {
  }

  const WORDS: seq<word> := [0xFFFF_FFFE, 0x3F80_0000] + [0x0100_0000, 0] + [0, 1] + [3, 0]

  lemma PackedWords()
    ensures PackAll(WORDS) ==
      [0xFE, 0xFF, 0xFF, 0xFF, 0, 0, 0x80, 0x3F] + [0, 0, 0, 1, 0, 0, 0, 0] + [0, 0, 0, 0, 1, 0, 0, 0]
      + [3, 0, 0, 0, 0, 0, 0, 0]
    ensures PackAll([0, 48]) == [0, 0, 0, 0, 48, 0, 0, 0]
  {
    hide PackAll;
    hide Pack;
    PackedValues();
    PackedTwo(0xFFFF_FFFE, 0x3F80_0000);
    PackedTwo(0x0100_0000, 0);
    PackedTwo(0, 1);
    PackedTwo(3, 0);
    PackedTwo(0, 48);
    PackedMore([0xFFFF_FFFE, 0x3F80_0000], [0x0100_0000, 0]);
    PackedMore([0xFFFF_FFFE, 0x3F80_0000] + [0x0100_0000, 0], [0, 1]);
    PackedMore([0xFFFF_FFFE, 0x3F80_0000] + [0x0100_0000, 0] + [0, 1], [3, 0]);
  }

  lemma OuterBlob()
    ensures BlobOf(READ, POOL) == Encoded(6, 1, [1, 2, 3, 3, 5, 4, 5], WORDS)
  {
    SheetTypes();
    SheetWords();
    hide TypesOf;
    hide WordsOf;
    hide Encoded;
    assert WORDS == [0xFFFF_FFFE, 0x3F80_0000, 0x0100_0000, 0, 0, 1, 3, 0];
  }

  lemma OuterBytes()
    ensures BlobOf(READ, POOL) == OUTER
  {
    OuterBlob();
    PackedValues();
    PackedWords();
    hide PackAll;
    hide Pack;
    hide BlobOf;
    assert Zeros(1) == [0];
  }

  lemma InnerBytes()
    ensures BlobOf(Table(1, [], []), POOL) == INNER
  {
    assert Zeros(0) == [];
    assert PackAll([]) == [];
  }

  lemma SheetBlobs()
    ensures BlobList(READ, POOL) == [OUTER, INNER]
  {
    OuterBytes();
    InnerBytes();
    hide BlobOf;
    assert BlobListUpTo(READ_ITEMS, 5, POOL) == [] by {
      assert BlobListUpTo(READ_ITEMS, 2, POOL) == [];
      assert BlobListUpTo(READ_ITEMS, 4, POOL) == [];
    }
    var inner: Value := Table(1, [], []);
    assert BlobListUpTo(inner.items, 0, POOL) == [] && BlobList(inner, POOL) == [INNER];
    assert BlobListUpTo(READ_ITEMS, 6, POOL) == [INNER];
    assert BlobListUpTo(READ_ITEMS, 7, POOL) == [INNER];
  }

  lemma SheetOffsetTable()
    ensures |OUTER| == 48 && |INNER| == 8
    ensures Flat([OUTER, INNER]) == OUTER + INNER && Offsets([OUTER, INNER]) == [0, 48]
  {
    var ts := [OUTER, INNER];
    assert ts[..1] == [OUTER] && [OUTER][..0] == [] && ts[..0] == [] && ts[..2] == ts;
    assert Flat([OUTER]) == OUTER;
    assert Flat(ts) == OUTER + INNER;
    assert Offset(ts, 0) == 0 && Offset(ts, 1) == 48;
  }

  // dump writes these bytes.
  lemma SheetBytes()
    ensures DumpBytes(SHEET) == FILE
  {
    SheetStrings();
    SheetNumbers();
    SheetBlobs();
    SheetOffsetTable();
    PackedWords();
    hide Strings;
    hide Number;
    hide BlobList;
    hide Flat;
    hide PackAll;
    hide Offsets;
    assert JoinNul(POOL) == [97, 98, 0, 107] by {
      assert POOL[..1] == [[97, 98]];
    }
    assert Pack(72) == [72, 0, 0, 0] && Pack(2) == [2, 0, 0, 0];
  }

  lemma SheetFits()
    ensures Plain(SHEET) && SHEET.Table? && Placed(POOL)
    ensures Tables(SHEET) == 2 && Blobs(SHEET) == 56
  {
    assert TablesUpTo(ITEMS, 5) == 0 && BlobsUpTo(ITEMS, 5) == 0 by {
      assert TablesUpTo(ITEMS, 3) == 0 && BlobsUpTo(ITEMS, 3) == 0;
    }
    assert Tables(ITEMS[5]) == 1 && Blobs(ITEMS[5]) == 8;
    assert POOL[..1] == [[97, 98]] && POOL[..0] == [] && [[97, 98]][..0] == [];
    assert |PoolOf([[97, 98]])| == 3 && |PoolOf([])| == 0;
  }

  // The file, and what undump makes of it.
  method Sheet() returns (file: bytes, tree: Value)
    ensures file == FILE && tree == READ
  {
    SheetFits();
    SheetStrings();
    SheetBytes();
    SheetNumbers();
    hide *;
    var r: Result<bytes> := Dump(SHEET);
    Limits();
    file := r.value;
    DumpRepresents(file, SHEET);
    Documents(file, READ);
    tree := Undump(file);
    RepresentsUnique(file, tree, READ);
  }

  lemma Documents(v: bytes, t: Value)
    requires Represents(v, t)
    ensures IsDocument(v)
  {
  }
}
