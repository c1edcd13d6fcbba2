/** The table of the CRC, the loop that uses it, and the hash slots of Redis Cluster keys. */
module Crc16Table {
  import opened Crc16

  // XMODEMCRC16Lookup, eight entries a row
  function Row(n: bv16): (r: seq<bv16>)
    requires n < 32
    ensures |r| == 8
  {
    match n
    case 0 => [0x0000, 0x1021, 0x2042, 0x3063, 0x4084, 0x50a5, 0x60c6, 0x70e7]
    case 1 => [0x8108, 0x9129, 0xa14a, 0xb16b, 0xc18c, 0xd1ad, 0xe1ce, 0xf1ef]
    case 2 => [0x1231, 0x0210, 0x3273, 0x2252, 0x52b5, 0x4294, 0x72f7, 0x62d6]
    case 3 => [0x9339, 0x8318, 0xb37b, 0xa35a, 0xd3bd, 0xc39c, 0xf3ff, 0xe3de]
    case 4 => [0x2462, 0x3443, 0x0420, 0x1401, 0x64e6, 0x74c7, 0x44a4, 0x5485]
    case 5 => [0xa56a, 0xb54b, 0x8528, 0x9509, 0xe5ee, 0xf5cf, 0xc5ac, 0xd58d]
    case 6 => [0x3653, 0x2672, 0x1611, 0x0630, 0x76d7, 0x66f6, 0x5695, 0x46b4]
    case 7 => [0xb75b, 0xa77a, 0x9719, 0x8738, 0xf7df, 0xe7fe, 0xd79d, 0xc7bc]
    case 8 => [0x48c4, 0x58e5, 0x6886, 0x78a7, 0x0840, 0x1861, 0x2802, 0x3823]
    case 9 => [0xc9cc, 0xd9ed, 0xe98e, 0xf9af, 0x8948, 0x9969, 0xa90a, 0xb92b]
    case 10 => [0x5af5, 0x4ad4, 0x7ab7, 0x6a96, 0x1a71, 0x0a50, 0x3a33, 0x2a12]
    case 11 => [0xdbfd, 0xcbdc, 0xfbbf, 0xeb9e, 0x9b79, 0x8b58, 0xbb3b, 0xab1a]
    case 12 => [0x6ca6, 0x7c87, 0x4ce4, 0x5cc5, 0x2c22, 0x3c03, 0x0c60, 0x1c41]
    case 13 => [0xedae, 0xfd8f, 0xcdec, 0xddcd, 0xad2a, 0xbd0b, 0x8d68, 0x9d49]
    case 14 => [0x7e97, 0x6eb6, 0x5ed5, 0x4ef4, 0x3e13, 0x2e32, 0x1e51, 0x0e70]
    case 15 => [0xff9f, 0xefbe, 0xdfdd, 0xcffc, 0xbf1b, 0xaf3a, 0x9f59, 0x8f78]
    case 16 => [0x9188, 0x81a9, 0xb1ca, 0xa1eb, 0xd10c, 0xc12d, 0xf14e, 0xe16f]
    case 17 => [0x1080, 0x00a1, 0x30c2, 0x20e3, 0x5004, 0x4025, 0x7046, 0x6067]
    case 18 => [0x83b9, 0x9398, 0xa3fb, 0xb3da, 0xc33d, 0xd31c, 0xe37f, 0xf35e]
    case 19 => [0x02b1, 0x1290, 0x22f3, 0x32d2, 0x4235, 0x5214, 0x6277, 0x7256]
    case 20 => [0xb5ea, 0xa5cb, 0x95a8, 0x8589, 0xf56e, 0xe54f, 0xd52c, 0xc50d]
    case 21 => [0x34e2, 0x24c3, 0x14a0, 0x0481, 0x7466, 0x6447, 0x5424, 0x4405]
    case 22 => [0xa7db, 0xb7fa, 0x8799, 0x97b8, 0xe75f, 0xf77e, 0xc71d, 0xd73c]
    case 23 => [0x26d3, 0x36f2, 0x0691, 0x16b0, 0x6657, 0x7676, 0x4615, 0x5634]
    case 24 => [0xd94c, 0xc96d, 0xf90e, 0xe92f, 0x99c8, 0x89e9, 0xb98a, 0xa9ab]
    case 25 => [0x5844, 0x4865, 0x7806, 0x6827, 0x18c0, 0x08e1, 0x3882, 0x28a3]
    case 26 => [0xcb7d, 0xdb5c, 0xeb3f, 0xfb1e, 0x8bf9, 0x9bd8, 0xabbb, 0xbb9a]
    case 27 => [0x4a75, 0x5a54, 0x6a37, 0x7a16, 0x0af1, 0x1ad0, 0x2ab3, 0x3a92]
    case 28 => [0xfd2e, 0xed0f, 0xdd6c, 0xcd4d, 0xbdaa, 0xad8b, 0x9de8, 0x8dc9]
    case 29 => [0x7c26, 0x6c07, 0x5c64, 0x4c45, 0x3ca2, 0x2c83, 0x1ce0, 0x0cc1]
    case 30 => [0xef1f, 0xff3e, 0xcf5d, 0xdf7c, 0xaf9b, 0xbfba, 0x8fd9, 0x9ff8]
    case _ => [0x6e17, 0x7e36, 0x4e55, 0x5e74, 0x2e93, 0x3eb2, 0x0ed1, 0x1ef0]
  }

  // ----- The table -----

  // One byte up, and the low byte.
  function Raise(x: bv16): bv16 { x << 8 }

  function LowPart(x: bv16): bv16 { x & 0xff }

  function Entry(x: bv16): bv16
    requires x < 0x100
  {
    Low3(x);
    Row(x >> 3)[(x & 7) as int]
  }

  lemma Low3(x: bv16)
    requires x < 0x100
    ensures x >> 3 < 32 && x & 7 < 8 && 0 <= (x & 7) as int < 8
  {
  }

  function Pick(b: bool, v: bv16): bv16 { if b then v else 0 }

  // The sums of the values that the bits of `n` pick.
  function Five(n: bv16, a: bv16, b: bv16, c: bv16, d: bv16, e: bv16): bv16 {
    Add(Add(Add(Add(Pick(n & 1 != 0, a), Pick(n & 2 != 0, b)), Pick(n & 4 != 0, c)), Pick(n & 8 != 0, d)),
        Pick(n & 16 != 0, e))
  }

  function Three(n: bv16, a: bv16, b: bv16, c: bv16): bv16 {
    Add(Add(Pick(n & 1 != 0, a), Pick(n & 2 != 0, b)), Pick(n & 4 != 0, c))
  }

  // The table is linear: an entry is the sum of those of the bits of its index.
  function Head(n: bv16): bv16 { Five(n, 0x8108, 0x1231, 0x2462, 0x48c4, 0x9188) }

  function Tail(j: bv16): bv16 { Three(j, 0x1021, 0x2042, 0x4084) }

  function RowFrom(h: bv16): (r: seq<bv16>)
    ensures |r| == 8
  {
    [Add(h, Tail(0)), Add(h, Tail(1)), Add(h, Tail(2)), Add(h, Tail(3)),
     Add(h, Tail(4)), Add(h, Tail(5)), Add(h, Tail(6)), Add(h, Tail(7))]
  }

  lemma Rows0(n: bv16)
    requires n < 8
    ensures Row(n) == RowFrom(Head(n))
  {
  }

  lemma Rows1(n: bv16)
    requires 8 <= n < 16
    ensures Row(n) == RowFrom(Head(n))
  {
  }

  lemma Rows2(n: bv16)
    requires 16 <= n < 24
    ensures Row(n) == RowFrom(Head(n))
  {
  }

  lemma Rows3(n: bv16)
    requires 24 <= n < 32
    ensures Row(n) == RowFrom(Head(n))
  {
  }

  lemma RowOk(n: bv16)
    requires n < 32
    ensures Row(n) == RowFrom(Head(n))
  {
    hide *;
    if n < 8 {
      Rows0(n);
    } else if n < 16 {
      Rows1(n);
    } else if n < 24 {
      Rows2(n);
    } else {
      Rows3(n);
    }
  }

  lemma InRow(h: bv16, j: bv16)
    requires j < 8 && 0 <= j as int < 8
    ensures RowFrom(h)[j as int] == Add(h, Tail(j))
  {
    hide Add;
    hide Tail;
    match j {
      case 0 =>
      case 1 =>
      case 2 =>
      case 3 =>
      case 4 =>
      case 5 =>
      case 6 =>
      case _ =>
    }
  }

  lemma EntryIs(x: bv16)
    requires x < 0x100
    ensures Entry(x) == Add(Head(x >> 3), Tail(x & 7))
  {
    hide Row;
    hide RowFrom;
    hide Add;
    hide Head;
    hide Tail;
    Low3(x);
    RowOk(x >> 3);
    InRow(Head(x >> 3), x & 7);
  }

  lemma HighBits(x: bv16)
    ensures Pick((x >> 3) & 1 != 0, 0x0800) == (x & 8) << 8
    ensures Pick((x >> 3) & 2 != 0, 0x1000) == (x & 16) << 8
    ensures Pick((x >> 3) & 4 != 0, 0x2000) == (x & 32) << 8
    ensures Pick((x >> 3) & 8 != 0, 0x4000) == (x & 64) << 8
    ensures Pick((x >> 3) & 16 != 0, 0x8000) == (x & 128) << 8
  {
  }

  lemma LowBits(x: bv16)
    ensures Pick((x & 7) & 1 != 0, 0x0100) == (x & 1) << 8
    ensures Pick((x & 7) & 2 != 0, 0x0200) == (x & 2) << 8
    ensures Pick((x & 7) & 4 != 0, 0x0400) == (x & 4) << 8
  {
  }

  lemma AllBits(x: bv16)
    requires x < 0x100
    ensures x << 8 ==
      Add(Add(Add(Add(Add((x & 8) << 8, (x & 16) << 8), (x & 32) << 8), (x & 64) << 8), (x & 128) << 8),
          Add(Add((x & 1) << 8, (x & 2) << 8), (x & 4) << 8))
  {
  }

  lemma RaiseBits(x: bv16)
    requires x < 0x100
    ensures Raise(x) == Add(Five(x >> 3, 0x0800, 0x1000, 0x2000, 0x4000, 0x8000), Three(x & 7, 0x0100, 0x0200, 0x0400))
  {
    hide Add;
    hide Pick;
    HighBits(x);
    LowBits(x);
    AllBits(x);
  }

  lemma Shift8Add(a: bv16, b: bv16)
    ensures Shift8(Add(a, b)) == Add(Shift8(a), Shift8(b))
  {
    hide *;
    TimesAdd(a, b, 8);
    TimesEight(a);
    TimesEight(b);
    TimesEight(Add(a, b));
  }

  lemma Shift8Pick(b: bool, v: bv16)
    ensures Shift8(Pick(b, v)) == Pick(b, Shift8(v))
  {
    Shift8Poly();
    hide Shift8;
  }

  lemma Shift8Five(n: bv16, a: bv16, b: bv16, c: bv16, d: bv16, e: bv16)
    ensures Shift8(Five(n, a, b, c, d, e)) == Five(n, Shift8(a), Shift8(b), Shift8(c), Shift8(d), Shift8(e))
  {
    hide Shift8;
    hide Add;
    hide Pick;
    var p, q, r, s, t := Pick(n & 1 != 0, a), Pick(n & 2 != 0, b), Pick(n & 4 != 0, c), Pick(n & 8 != 0, d),
        Pick(n & 16 != 0, e);
    Shift8Pick(n & 1 != 0, a);
    Shift8Pick(n & 2 != 0, b);
    Shift8Pick(n & 4 != 0, c);
    Shift8Pick(n & 8 != 0, d);
    Shift8Pick(n & 16 != 0, e);
    Shift8Add(p, q);
    Shift8Add(Add(p, q), r);
    Shift8Add(Add(Add(p, q), r), s);
    Shift8Add(Add(Add(Add(p, q), r), s), t);
  }

  lemma Shift8Three(n: bv16, a: bv16, b: bv16, c: bv16)
    ensures Shift8(Three(n, a, b, c)) == Three(n, Shift8(a), Shift8(b), Shift8(c))
  {
    hide Shift8;
    hide Add;
    hide Pick;
    var p, q, r := Pick(n & 1 != 0, a), Pick(n & 2 != 0, b), Pick(n & 4 != 0, c);
    Shift8Pick(n & 1 != 0, a);
    Shift8Pick(n & 2 != 0, b);
    Shift8Pick(n & 4 != 0, c);
    Shift8Add(p, q);
    Shift8Add(Add(p, q), r);
  }

  // The entries of the single bits.
  lemma Shift8Bits()
    ensures Shift8(0x0100) == 0x1021 && Shift8(0x0200) == 0x2042 && Shift8(0x0400) == 0x4084
    ensures Shift8(0x0800) == 0x8108 && Shift8(0x1000) == 0x1231 && Shift8(0x2000) == 0x2462
    ensures Shift8(0x4000) == 0x48c4 && Shift8(0x8000) == 0x9188
  {
  }

  // Each entry of the table is the remainder of its index times x^16.
  lemma TableOk(x: bv16)
    requires x < 0x100
    ensures Entry(x) == Shift8(Raise(x))
  {
    hide Entry;
    hide Shift8;
    hide Add;
    hide Five;
    hide Three;
    hide Raise;
    EntryIs(x);
    RaiseBits(x);
    Shift8Bits();
    Shift8Add(Five(x >> 3, 0x0800, 0x1000, 0x2000, 0x4000, 0x8000), Three(x & 7, 0x0100, 0x0200, 0x0400));
    Shift8Five(x >> 3, 0x0800, 0x1000, 0x2000, 0x4000, 0x8000);
    Shift8Three(x & 7, 0x0100, 0x0200, 0x0400);
  }

  // ----- The loop -----

  // The index of the table that a byte leads to.
  function Index(crc: bv16, b: bv8): bv16 {
    ((crc >> 8) ^ (b as bv16)) & 0xff
  }

  lemma IndexBound(crc: bv16, b: bv8)
    ensures Index(crc, b) < 0x100
  {
  }

  lemma RawParts(crc: bv16, w: bv16)
    requires w < 0x100
    ensures crc ^ (w << 8) == ((((crc >> 8) ^ w) & 0xff) << 8) ^ (crc & 0xff)
  {
  }

  lemma WideBound(b: bv8)
    ensures b as bv16 < 0x100
  {
  }

  lemma PartsWide(crc: bv16, w: bv16)
    requires w < 0x100
    ensures Add(crc, Raise(w)) == Add(Raise(((crc >> 8) ^ w) & 0xff), LowPart(crc))
  {
    RawParts(crc, w);
  }

  lemma IndexParts(crc: bv16, b: bv8)
    ensures Add(crc, Widen(b)) == Add(Raise(Index(crc, b)), LowPart(crc))
  {
    hide Add;
    hide LowPart;
    WideBound(b);
    PartsWide(crc, b as bv16);
    assert Widen(b) == Raise(b as bv16);
    hide Raise;
    hide Widen;
  }

  lemma LowShift(crc: bv16)
    ensures LowPart(crc) < 0x100 && Raise(LowPart(crc)) == Raise(crc)
  {
  }

  lemma LowEight(x: bv16)
    requires x < 0x100
    ensures Shift8(x) == Raise(x)
  {
    LowByte(x);
    hide Shift8;
  }

  // One turn of the loop takes in the eight coefficients of a byte.
  lemma ByteStep(crc: bv16, b: bv8)
    requires Index(crc, b) < 0x100
    ensures Add(Raise(crc), Entry(Index(crc, b))) == DirectAll(crc, BitsOf(b))
  {
    hide *;
    var x := Index(crc, b);
    IndexBound(crc, b);
    IndexParts(crc, b);
    LowShift(crc);
    DirectByte(crc, b);
    TimesAdd(Raise(x), LowPart(crc), 8);
    TimesEight(Raise(x));
    TimesEight(LowPart(crc));
    LowEight(LowPart(crc));
    TableOk(x);
    AddOrder(Raise(crc), Shift8(Raise(x)));
  }

  // The checksum of the module.
  method Checksum(s: seq<bv8>) returns (crc: bv16)
    ensures crc == Crc(s)
  {
    hide *;
    crc := 0;
    DirectNone(0, s);
    for i := 0 to |s|
      invariant crc == DirectAll(0, Bits(s[..i]))
    {
      var x := Index(crc, s[i]);
      IndexBound(crc, s[i]);
      ByteStep(crc, s[i]);
      BitsMore(s, i);
      RemainderAppend(0, Bits(s[..i]), BitsOf(s[i]));
      crc := Add(Raise(crc), Entry(x));
    }
    assert s[..|s|] == s;
    CrcDirect(s);
  }

  lemma DirectNone(z: bv16, s: seq<bv8>)
    ensures DirectAll(z, Bits(s[..0])) == z
  {
  }

  lemma BitsMore(s: seq<bv8>, i: nat)
    requires i < |s|
    ensures Bits(s[..i + 1]) == Bits(s[..i]) + BitsOf(s[i])
  {
    assert s[..i + 1][..i] == s[..i];
  }

  // One turn of the loop.
  function Turn(crc: bv16, b: bv8): bv16 {
    IndexBound(crc, b);
    Add(Raise(crc), Entry(Index(crc, b)))
  }

  lemma TurnDirect(crc: bv16, b: bv8)
    ensures Turn(crc, b) == DirectAll(crc, BitsOf(b))
  {
    IndexBound(crc, b);
    ByteStep(crc, b);
    hide *;
  }

  lemma CheckTurns(crc: bv16, b: bv8)
    ensures crc == 0x0000 && b == 0x31 ==> Turn(crc, b) == 0x2672
    ensures crc == 0x2672 && b == 0x32 ==> Turn(crc, b) == 0x20b5
    ensures crc == 0x20b5 && b == 0x33 ==> Turn(crc, b) == 0x9752
    ensures crc == 0x9752 && b == 0x34 ==> Turn(crc, b) == 0xd789
    ensures crc == 0xd789 && b == 0x35 ==> Turn(crc, b) == 0x546c
    ensures crc == 0x546c && b == 0x36 ==> Turn(crc, b) == 0x20e4
    ensures crc == 0x20e4 && b == 0x37 ==> Turn(crc, b) == 0x86d6
    ensures crc == 0x86d6 && b == 0x38 ==> Turn(crc, b) == 0x9015
    ensures crc == 0x9015 && b == 0x39 ==> Turn(crc, b) == 0x31c3
  {
  }

  // ----- Hash slots -----

  const OPEN: bv8 := 123
  const CLOSE: bv8 := 125

  function Find(s: seq<bv8>, c: bv8, i: nat): (r: int)
    ensures r == -1 || (i <= r < |s| && s[r] == c && forall j | i <= j < r :: s[j] != c)
    ensures r == -1 ==> forall j | i <= j < |s| :: s[j] != c
    decreases |s| - i
  {
    if i >= |s| then -1 else if s[i] == c then i else Find(s, c, i + 1)
  }

  // The part of a key that is hashed.
  function Hashed(key: seq<bv8>): seq<bv8> {
    var start := Find(key, OPEN, 0);
    if start < 0 then key
    else
      var end := Find(key, CLOSE, start + 1);
      if end < 0 || end == start + 1 then key else key[start + 1..end]
  }

  // RedisClusterHashSlots
  function Slot(crc: bv16): bv16 { crc % 16384 }

  lemma SlotBound(crc: bv16)
    ensures Slot(crc) < 16384
  {
  }

  function SlotOf(key: seq<bv8>): bv16 { Slot(Crc(Hashed(key))) }

  // rediscluster:keyslot
  method KeySlot(key: seq<bv8>) returns (slot: bv16)
    ensures slot == SlotOf(key) && slot < 16384
  {
    hide Slot;
    hide Crc;
    hide Find;
    var k := key;
    var start := Find(key, OPEN, 0);
    if start >= 0 {
      var end := Find(key, CLOSE, start + 1);
      if end >= 0 && end != start + 1 {
        k := key[start + 1..end];
      }
    }
    var crc := Checksum(k);
    SlotBound(crc);
    slot := Slot(crc);
  }

  // A key with a tag that is not empty is hashed by its first tag ...
  lemma TagHashed(before: seq<bv8>, tag: seq<bv8>, after: seq<bv8>)
    requires OPEN !in before && CLOSE !in tag && tag != []
    ensures Hashed(before + [OPEN] + tag + [CLOSE] + after) == tag
  {
    var key := before + [OPEN] + tag + [CLOSE] + after;
    var n, m := |before|, |before| + 1 + |tag|;
    assert key[n] == OPEN && key[m] == CLOSE && key[n + 1..m] == tag;
    assert forall j | 0 <= j < n :: key[j] == before[j];
    assert forall j | n + 1 <= j < m :: key[j] == tag[j - n - 1];
  }

  // ... and every other key as a whole.
  lemma WholeHashed(key: seq<bv8>)
    ensures Hashed(key) != key ==>
      exists i, j ::
        && 0 <= i < j < |key| && key[i] == OPEN && key[j] == CLOSE && j > i + 1
        && Hashed(key) == key[i + 1..j] && OPEN !in key[..i] && CLOSE !in key[i + 1..j]
  {
    if Hashed(key) != key {
      var i := Find(key, OPEN, 0);
      var j := Find(key, CLOSE, i + 1);
      assert OPEN !in key[..i] && CLOSE !in key[i + 1..j];
    }
  }

  // Two keys with the same tag go to the same slot.
  lemma SameSlot(b: seq<bv8>, c: seq<bv8>, tag: seq<bv8>, d: seq<bv8>, e: seq<bv8>)
    requires OPEN !in b && OPEN !in c && CLOSE !in tag && tag != []
    ensures SlotOf(b + [OPEN] + tag + [CLOSE] + d) == SlotOf(c + [OPEN] + tag + [CLOSE] + e)
  {
    TagHashed(b, tag, d);
    TagHashed(c, tag, e);
  }

  // ----- The check value -----

  function Loop(s: seq<bv8>): bv16 {
    if s == [] then 0 else Turn(Loop(s[..|s| - 1]), s[|s| - 1])
  }

  lemma {:induction false} LoopIsCrc(s: seq<bv8>)
    ensures Loop(s) == DirectAll(0, Bits(s))
  {
    hide DirectAll;
    hide Turn;
    if s == [] {
      DirectNone(0, s);
      assert s[..0] == s;
    } else {
      var n := |s| - 1;
      LoopIsCrc(s[..n]);
      TurnDirect(Loop(s[..n]), s[n]);
      BitsMore(s, n);
      assert s[..n + 1] == s;
      RemainderAppend(0, Bits(s[..n]), BitsOf(s[n]));
    }
  }

  lemma LoopMore(s: seq<bv8>, b: bv8)
    ensures Loop(s + [b]) == Turn(Loop(s), b)
  {
    assert (s + [b])[..|s|] == s;
  }

  // The checksum of "123456789", and the slot of that key.
  lemma CheckValue()
    ensures Crc([0x31, 0x32, 0x33, 0x34, 0x35, 0x36, 0x37, 0x38, 0x39]) == 0x31C3
    ensures SlotOf([0x31, 0x32, 0x33, 0x34, 0x35, 0x36, 0x37, 0x38, 0x39]) == 12739
  {
    hide Turn;
    hide Crc;
    hide DirectAll;
    hide Bits;
    hide Loop;
    hide Slot;
    LoopNone();
    var s0: seq<bv8> := [];
    LoopMore(s0, 0x31);
    CheckTurns(0x0000, 0x31);
    var s1 := s0 + [0x31 as bv8];
    LoopMore(s1, 0x32);
    CheckTurns(0x2672, 0x32);
    var s2 := s1 + [0x32 as bv8];
    LoopMore(s2, 0x33);
    CheckTurns(0x20b5, 0x33);
    var s3 := s2 + [0x33 as bv8];
    LoopMore(s3, 0x34);
    CheckTurns(0x9752, 0x34);
    var s4 := s3 + [0x34 as bv8];
    LoopMore(s4, 0x35);
    CheckTurns(0xd789, 0x35);
    var s5 := s4 + [0x35 as bv8];
    LoopMore(s5, 0x36);
    CheckTurns(0x546c, 0x36);
    var s6 := s5 + [0x36 as bv8];
    LoopMore(s6, 0x37);
    CheckTurns(0x20e4, 0x37);
    var s7 := s6 + [0x37 as bv8];
    LoopMore(s7, 0x38);
    CheckTurns(0x86d6, 0x38);
    var s8 := s7 + [0x38 as bv8];
    LoopMore(s8, 0x39);
    CheckTurns(0x9015, 0x39);
    var s9 := s8 + [0x39 as bv8];
    assert s9 == [0x31, 0x32, 0x33, 0x34, 0x35, 0x36, 0x37, 0x38, 0x39];
    LoopIsCrc(s9);
    CrcDirect(s9);
    WholeHashed(s9);
    SlotAt();
  }

  lemma LoopNone()
    ensures Loop([]) == 0
  {
  }

  lemma SlotAt()
    ensures Slot(0x31C3) == 12739 && Slot(0xFFFF) == 16383 && Slot(16384) == 0
  {
  }
}
