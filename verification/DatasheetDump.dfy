/** `ctd.dump`: a tree of tables becomes a document. */
module DatasheetDump {
  import opened Words
  import opened Datasheet
  import opened DatasheetFile

  // ----- Numbering: tables are numbered in the order dump_table enters them -----

  function Tables(v: Value): nat
    decreases v, 0
  {
    if v.Table? then 1 + TablesUpTo(v.items, |v.items|) else 0
  }

  function TablesUpTo(items: seq<Value>, i: nat): nat
    requires i <= |items|
    decreases items, i
  {
    if i == 0 then 0 else TablesUpTo(items, i - 1) + Tables(items[i - 1])
  }

  // `t` with its tables numbered from `a` on.
  function Number(t: Value, a: nat): (r: Value)
    ensures r.Table? <==> t.Table?
    decreases t, 0
  {
    if t.Table? then Table(a, NumberUpTo(t.items, |t.items|, a + 1), t.keys) else t
  }

  function NumberUpTo(items: seq<Value>, i: nat, a: nat): (r: seq<Value>)
    requires i <= |items|
    ensures |r| == i
    ensures forall k {:trigger r[k]} | 0 <= k < i :: r[k] == Number(items[k], a + TablesUpTo(items, k))
    decreases items, i
  {
    if i == 0 then []
    else NumberUpTo(items, i - 1, a) + [Number(items[i - 1], a + TablesUpTo(items, i - 1))]
  }

  lemma {:induction false} TablesUpToMonotone(items: seq<Value>, i: nat, j: nat)
    requires i <= j <= |items|
    ensures TablesUpTo(items, i) <= TablesUpTo(items, j)
    decreases j
  {
    if i < j {
      TablesUpToMonotone(items, i, j - 1);
    }
  }

  lemma {:induction false} NumberErases(t: Value, a: nat)
    ensures Erase(Number(t, a)) == Erase(t)
    ensures Plain(t) ==> Plain(Number(t, a))
    decreases t
  {
    if t.Table? {
      forall i | 0 <= i < |t.items|
        ensures Erase(Number(t, a).items[i]) == Erase(t.items[i])
        ensures Plain(t.items[i]) ==> Plain(Number(t, a).items[i])
      {
        NumberErases(t.items[i], a + 1 + TablesUpTo(t.items, i));
      }
      assert Erase(Number(t, a)).items == Erase(t).items;
    }
  }

  // Numbers come from the shape of the tree alone.
  lemma {:induction false} NumberSame(t: Value, u: Value, a: nat)
    requires Erase(t) == Erase(u)
    ensures Number(t, a) == Number(u, a) && Tables(t) == Tables(u)
    decreases t
  {
    if t.Table? {
      assert u.Table? && |u.items| == |t.items| && u.keys == t.keys by {
        assert Erase(t).items == EraseUpTo(t.items, |t.items|);
      }
      for i := 0 to |t.items|
        invariant TablesUpTo(t.items, i) == TablesUpTo(u.items, i)
        invariant NumberUpTo(t.items, i, a + 1) == NumberUpTo(u.items, i, a + 1)
      {
        assert Erase(t).items[i] == Erase(t.items[i]) && Erase(u).items[i] == Erase(u.items[i]);
        NumberSame(t.items[i], u.items[i], a + 1 + TablesUpTo(t.items, i));
      }
    }
  }

  lemma {:induction false} NumberItems(t: Value, a: nat)
    requires t.Table?
    ensures Number(t, a).Table? && Number(t, a).id == a && Number(t, a).keys == t.keys
    ensures |Number(t, a).items| == |t.items|
    ensures forall i {:trigger Number(t, a).items[i]} | 0 <= i < |t.items| ::
      && Number(t, a).items[i] == Number(t.items[i], a + 1 + TablesUpTo(t.items, i))
      && TypeCode(Number(t, a).items[i]) == TypeCode(t.items[i])
  {
  }

  lemma {:induction false} NumberRoot(t: Value, a: nat)
    ensures Number(t, a).Table? <==> t.Table?
    ensures t.Table? ==> Number(t, a).id == a
  {
  }

  // The item a key of a numbered table leads to.
  lemma {:induction false} LookupNumber(t: Value, a: nat, k: Key) returns (i: nat)
    requires t.Table? && |t.keys| <= |t.items| && Lookup(Number(t, a), k).Some?
    ensures i < |t.items| && k == KeyOf(t, i)
    ensures Lookup(Number(t, a), k) == Some(Number(t.items[i], a + 1 + TablesUpTo(t.items, i)))
  {
    NumberItems(t, a);
    i := LookupKey(Number(t, a), k);
  }

  lemma {:induction false} NumberRange(t: Value, a: nat, p: Path)
    requires Plain(t) && TableAt(Number(t, a), p).Some?
    ensures a <= TableAt(Number(t, a), p).value < a + Tables(t)
    ensures TableAt(Number(t, a), p).value == a ==> p == []
    decreases |p|
  {
    if p != [] && t.Table? {
      var i := LookupNumber(t, a, p[0]);
      NumberRange(t.items[i], a + 1 + TablesUpTo(t.items, i), p[1..]);
      TablesUpToMonotone(t.items, i + 1, |t.items|);
    }
  }

  // Different items have different numbers.
  lemma {:induction false} ItemsApart(items: seq<Value>, i: nat, j: nat, x: nat)
    requires i < |items| && j < |items|
    requires TablesUpTo(items, i) <= x < TablesUpTo(items, i) + Tables(items[i])
    requires TablesUpTo(items, j) <= x < TablesUpTo(items, j) + Tables(items[j])
    ensures i == j
  {
    if i < j {
      TablesUpToMonotone(items, i + 1, j);
    } else if j < i {
      TablesUpToMonotone(items, j + 1, i);
    }
  }

  // No two paths of a numbered tree lead to the same number.
  lemma {:induction false} NumberUnique(t: Value, a: nat, p: Path, q: Path)
    requires Plain(t) && TableAt(Number(t, a), p).Some?
    requires TableAt(Number(t, a), p) == TableAt(Number(t, a), q)
    ensures p == q
    decreases |p|
  {
    hide *;
    NumberRange(t, a, p);
    NumberRange(t, a, q);
    RootAt(Number(t, a), p);
    RootAt(Number(t, a), q);
    NumberRoot(t, a);
    if p != [] && q != [] {
      NumberItems(t, a);
      var i := LookupNumber(t, a, p[0]);
      var j := LookupNumber(t, a, q[0]);
      var ai, aj := a + 1 + TablesUpTo(t.items, i), a + 1 + TablesUpTo(t.items, j);
      ItemStep(t, i);
      ItemStep(t, j);
      NumberRange(t.items[i], ai, p[1..]);
      NumberRange(t.items[j], aj, q[1..]);
      ItemsApart(t.items, i, j, TableAt(Number(t, a), p).value - a - 1);
      NumberUnique(t.items[i], ai, p[1..], q[1..]);
      assert p == [p[0]] + p[1..] && q == [q[0]] + q[1..];
    }
  }

  // The item whose tables include the `off`-th one.
  lemma {:induction false} ItemWithTable(items: seq<Value>, n: nat, off: nat) returns (i: nat)
    requires n <= |items| && off < TablesUpTo(items, n)
    ensures i < n && TablesUpTo(items, i) <= off < TablesUpTo(items, i + 1)
    decreases n
  {
    if TablesUpTo(items, n - 1) <= off {
      i := n - 1;
    } else {
      i := ItemWithTable(items, n - 1, off);
    }
  }

  // Every number of the range is some table's.
  lemma {:induction false} NumberCovers(t: Value, a: nat, x: nat) returns (p: Path)
    requires Plain(t) && a <= x < a + Tables(t)
    ensures TableAt(Number(t, a), p) == Some(x)
    decreases t
  {
    NumberItems(t, a);
    if x == a {
      p := [];
    } else {
      var i := ItemWithTable(t.items, |t.items|, x - a - 1);
      var q := NumberCovers(t.items[i], a + 1 + TablesUpTo(t.items, i), x);
      LookupKeyOf(Number(t, a), i);
      p := [KeyOf(t, i)] + q;
      assert p[1..] == q;
    }
  }

  // ----- Sizes, which bound every number the format packs -----

  // Bytes of the encoded tables of `v`.
  function Blobs(v: Value): nat
    decreases v, 0
  {
    match v
    case Table(_, items, keys) =>
      BlobSize(if |keys| <= |items| then |items| - |keys| else 0, |keys|) + BlobsUpTo(items, |items|)
    case _ => 0
  }

  function BlobsUpTo(items: seq<Value>, i: nat): nat
    requires i <= |items|
    decreases items, i
  {
    if i == 0 then 0 else BlobsUpTo(items, i - 1) + Blobs(items[i - 1])
  }

  function Added(ss: seq<bytes>, s: bytes): seq<bytes> {
    if s in ss then ss else ss + [s]
  }

  // The strings stored when `v` is encoded after `ss`: a key before its value, each where it is met first.
  function Strings(v: Value, ss: seq<bytes>): seq<bytes>
    decreases v, 0
  {
    match v
    case Str(s) => Added(ss, s)
    case Table(_, items, keys) => if |keys| <= |items| then StringsUpTo(items, keys, |items|, ss) else ss
    case _ => ss
  }

  function StringsUpTo(items: seq<Value>, keys: seq<bytes>, i: nat, ss: seq<bytes>): seq<bytes>
    requires i <= |items| && |keys| <= |items|
    decreases items, i
  {
    if i == 0 then ss
    else
      var before, j := StringsUpTo(items, keys, i - 1, ss), i - 1 - (|items| - |keys|);
      Strings(items[i - 1], if j < 0 then before else Added(before, keys[j]))
  }

  // Each string begins at an offset that fits a word.
  ghost predicate Placed(ss: seq<bytes>) {
    forall i | 0 <= i < |ss| :: |PoolOf(ss[..i])| < WORD
  }

  ghost predicate Fits(n: nat, size: nat, ss: seq<bytes>) {
    n <= HALF && size < WORD && Placed(ss)
  }

  // Whether the first `i` items of `t`, whose number is `index`, fit.
  ghost predicate FitsTo(t: Value, index: nat, i: nat, ss: seq<bytes>)
    requires t.Table? && |t.keys| <= |t.items| && i <= |t.items|
  {
    Fits(index + 1 + TablesUpTo(t.items, i), BlobsUpTo(t.items, i), StringsUpTo(t.items, t.keys, i, ss))
  }

  lemma {:induction false} StringsGrow(v: Value, ss: seq<bytes>)
    ensures ss <= Strings(v, ss)
    decreases v, 0
  {
    if v.Table? && |v.keys| <= |v.items| {
      StringsUpToGrow(v.items, v.keys, |v.items|, ss);
    }
  }

  lemma {:induction false} StringsUpToGrow(items: seq<Value>, keys: seq<bytes>, i: nat, ss: seq<bytes>)
    requires i <= |items| && |keys| <= |items|
    ensures ss <= StringsUpTo(items, keys, i, ss)
    decreases items, i
  {
    if i > 0 {
      var before := StringsUpTo(items, keys, i - 1, ss);
      StringsUpToGrow(items, keys, i - 1, ss);
      StringsGrow(items[i - 1],
        if i - 1 < |items| - |keys| then before else Added(before, keys[i - 1 - (|items| - |keys|)]));
    }
  }

  lemma {:induction false} PlacedPrefix(ss: seq<bytes>, us: seq<bytes>)
    requires ss <= us && Placed(us)
    ensures Placed(ss)
  {
    forall i | 0 <= i < |ss|
      ensures |PoolOf(ss[..i])| < WORD
    {
      assert ss[..i] == us[..i];
    }
  }

  lemma {:induction false} PlacedAdded(ss: seq<bytes>, s: bytes)
    requires Placed(ss)
    ensures Placed(ss + [s]) <==> |PoolOf(ss)| < WORD
  {
    var us := ss + [s];
    assert us[..|ss|] == ss;
    forall i | 0 <= i < |ss|
      ensures |PoolOf(us[..i])| < WORD
    {
      assert us[..i] == ss[..i];
    }
  }

  lemma {:induction false} FitsToMonotone(t: Value, index: nat, i: nat, j: nat, ss: seq<bytes>)
    requires t.Table? && |t.keys| <= |t.items| && i <= j <= |t.items|
    requires FitsTo(t, index, j, ss)
    ensures FitsTo(t, index, i, ss)
    decreases j
  {
    if i < j {
      var before := StringsUpTo(t.items, t.keys, j - 1, ss);
      var arrayN := |t.items| - |t.keys|;
      var with := if j - 1 < arrayN then before else Added(before, t.keys[j - 1 - arrayN]);
      StringsGrow(t.items[j - 1], with);
      PlacedPrefix(before, StringsUpTo(t.items, t.keys, j, ss));
      FitsToMonotone(t, index, i, j - 1, ss);
    }
  }

  // An item that does not fit does not fit with those before it.
  lemma {:induction false} ItemFits(t: Value, index: nat, i: nat, ss: seq<bytes>)
    requires Plain(t) && t.Table? && i < |t.items|
    ensures var us := StringsUpTo(t.items, t.keys, i, ss);
      var with := if i < |t.items| - |t.keys| then us else Added(us, t.keys[i - (|t.items| - |t.keys|)]);
      var n := index + 1 + TablesUpTo(t.items, i) + Tables(t.items[i]);
      && StringsUpTo(t.items, t.keys, i + 1, ss) == Strings(t.items[i], with)
      && (!Fits(n, Blobs(t.items[i]), Strings(t.items[i], with)) ==> !FitsTo(t, index, i + 1, ss))
  {
  }

  lemma {:induction false} ItemStep(t: Value, i: nat)
    requires Plain(t) && t.Table? && i < |t.items|
    ensures Plain(t.items[i])
    ensures TablesUpTo(t.items, i + 1) == TablesUpTo(t.items, i) + Tables(t.items[i])
    ensures BlobsUpTo(t.items, i + 1) == BlobsUpTo(t.items, i) + Blobs(t.items[i])
    ensures i >= |t.items| - |t.keys| ==> NoNul(t.keys[i - (|t.items| - |t.keys|)])
  {
  }

  lemma {:induction false} TableSize(t: Value, ss: seq<bytes>)
    requires Plain(t) && t.Table?
    ensures |t.keys| <= |t.items|
    ensures Tables(t) == 1 + TablesUpTo(t.items, |t.items|)
    ensures Blobs(t) == BlobSize(|t.items| - |t.keys|, |t.keys|) + BlobsUpTo(t.items, |t.items|)
    ensures Strings(t, ss) == StringsUpTo(t.items, t.keys, |t.items|, ss)
    ensures BlobSize(|t.items| - |t.keys|, |t.keys|) >= 4 * |t.items|
    ensures TablesUpTo(t.items, 0) == BlobsUpTo(t.items, 0) == 0
    ensures StringsUpTo(t.items, t.keys, 0, ss) == ss
  {
  }

  // A table that does not fit, by its items or by its own size.
  lemma {:induction false} TableFits(t: Value, index: nat, ss: seq<bytes>)
    requires Plain(t) && t.Table?
    requires Fits(index + Tables(t), Blobs(t), Strings(t, ss))
    ensures |t.keys| <= |t.items| < HALF && FitsTo(t, index, |t.items|, ss)
  {
    TableSize(t, ss);
  }

  lemma {:induction false} NotFits(t: Value, index: nat, ss: seq<bytes>)
    requires Plain(t) && t.Table? && |t.keys| <= |t.items|
    requires |t.items| >= HALF || !FitsTo(t, index, |t.items|, ss)
    ensures !Fits(index + Tables(t), Blobs(t), Strings(t, ss))
  {
    if Fits(index + Tables(t), Blobs(t), Strings(t, ss)) {
      TableFits(t, index, ss);
    }
  }

  lemma {:induction false} NotFitsTo(t: Value, index: nat, i: nat, ss: seq<bytes>)
    requires t.Table? && |t.keys| <= |t.items| && i <= |t.items| && !FitsTo(t, index, i, ss)
    ensures !FitsTo(t, index, |t.items|, ss)
  {
    if FitsTo(t, index, |t.items|, ss) {
      FitsToMonotone(t, index, i, |t.items|, ss);
    }
  }

  lemma {:induction false} NotPlaced(v: Value, ss: seq<bytes>, n: nat)
    requires !Placed(ss)
    ensures !Fits(n, Blobs(v), Strings(v, ss))
  {
    if Placed(Strings(v, ss)) {
      StringsGrow(v, ss);
      PlacedPrefix(ss, Strings(v, ss));
    }
  }

  // Every table has eight bytes at least.
  lemma {:induction false} BlobsTables(v: Value)
    ensures 8 * Tables(v) <= Blobs(v)
    decreases v, 0
  {
    if v.Table? {
      BlobsTablesUpTo(v.items, |v.items|);
    }
  }

  lemma {:induction false} BlobsTablesUpTo(items: seq<Value>, i: nat)
    requires i <= |items|
    ensures 8 * TablesUpTo(items, i) <= BlobsUpTo(items, i)
    decreases items, i
  {
    if i > 0 {
      BlobsTables(items[i - 1]);
      BlobsTablesUpTo(items, i - 1);
    }
  }

  // ----- The string pool -----

  function PoolOf(ss: seq<bytes>): bytes {
    if ss == [] then [] else PoolOf(ss[..|ss| - 1]) + ss[|ss| - 1] + [0]
  }

  // table.concat(ss, "\0")
  function JoinNul(ss: seq<bytes>): bytes {
    if ss == [] then []
    else if |ss| == 1 then ss[0]
    else JoinNul(ss[..|ss| - 1]) + [0] + ss[|ss| - 1]
  }

  lemma {:induction false} JoinIsPool(ss: seq<bytes>)
    ensures PoolOf(ss) <= JoinNul(ss) + [0]
    ensures ss != [] ==> PoolOf(ss) == JoinNul(ss) + [0]
  {
    if |ss| > 1 {
      JoinIsPool(ss[..|ss| - 1]);
    }
  }

  // ----- One encoded table -----

  function Zeros(n: nat): bytes { seq(n, _ => 0) }

  function Encoded(arrayN: word, dictN: word, types: bytes, words: seq<word>): bytes {
    Pack(arrayN) + Pack(dictN) + types + Zeros(Align4(8 + |types|) - 8 - |types|) + PackAll(words)
  }

  // What a reader finds in an encoded table.
  ghost predicate Reads(b: bytes, arrayN: word, dictN: word, types: bytes, words: seq<word>) {
    && |b| == Align4(8 + |types|) + 4 * |words|
    && Unpack(b, 0) == arrayN && Unpack(b, 4) == dictN
    && (forall i {:trigger types[i]} | 0 <= i < |types| :: b[8 + i] == types[i])
    && (forall k {:trigger BodyWord(b, |types|, k)} | 0 <= k < |words| :: BodyWord(b, |types|, k) == words[k])
  }

  lemma Aligned(n: nat)
    ensures Align4(n) >= n
  {
  }

  lemma {:induction false} EncodedReads(arrayN: word, dictN: word, types: bytes, words: seq<word>)
    ensures Reads(Encoded(arrayN, dictN, types, words), arrayN, dictN, types, words)
  {
    hide Pack;
    hide PackAll;
    hide Unpack;
    hide Align4;
    Aligned(8 + |types|);
    var b := Encoded(arrayN, dictN, types, words);
    var zeros := Zeros(Align4(8 + |types|) - 8 - |types|);
    var head := Pack(arrayN) + Pack(dictN) + types + zeros;
    assert b == Pack(arrayN) + Pack(dictN) + (types + zeros + PackAll(words));
    HeadReads(arrayN, dictN, types + zeros + PackAll(words));
    forall k | 0 <= k < |words|
      ensures BodyWord(b, |types|, k) == words[k]
    {
      BodyReads(head, words, k);
    }
  }

  // The words of the first `i` items of `t`, its keys included, in body order.
  function WordCount(arrayN: nat, i: nat): nat {
    if i <= arrayN then i else arrayN + 2 * (i - arrayN)
  }

  ghost predicate ItemsDone(d: Doc, t: Value, i: nat, types: bytes, words: seq<word>)
    requires t.Table? && |t.keys| <= |t.items| && i <= |t.items|
  {
    var arrayN := |t.items| - |t.keys|;
    && |types| == i
    && |words| == WordCount(arrayN, i)
    && (forall k | 0 <= k < i :: types[k] == TypeCode(t.items[k]))
    && (forall k | 0 <= k < i :: RepVal(d, words[SlotOf(arrayN, k)], t.items[k]))
    && (forall j | 0 <= j < i - arrayN :: PoolHas(d.pool, words[KeySlot(arrayN, j)], t.keys[j]))
  }

  lemma {:induction false} ItemsDoneNone(d: Doc, t: Value)
    requires t.Table? && |t.keys| <= |t.items|
    ensures ItemsDone(d, t, 0, [], [])
  {
  }

  lemma {:induction false} ItemsDoneSize(d: Doc, t: Value, types: bytes, words: seq<word>)
    requires t.Table? && |t.keys| <= |t.items| && ItemsDone(d, t, |t.items|, types, words)
    ensures |types| == |t.items| && |words| == |t.items| + |t.keys|
  {
  }

  lemma {:induction false} ItemsDoneExtends(d: Doc, e: Doc, t: Value, i: nat, types: bytes, words: seq<word>)
    requires t.Table? && |t.keys| <= |t.items| && i <= |t.items|
    requires ItemsDone(d, t, i, types, words) && Extends(d, e)
    ensures ItemsDone(e, t, i, types, words)
  {
    var arrayN := |t.items| - |t.keys|;
    forall k | 0 <= k < i
      ensures RepVal(e, words[SlotOf(arrayN, k)], t.items[k])
    {
      RepValExtends(d, e, words[SlotOf(arrayN, k)], t.items[k]);
    }
    forall j | 0 <= j < i - arrayN
      ensures PoolHas(e.pool, words[KeySlot(arrayN, j)], t.keys[j])
    {
      PoolHasExtends(d.pool, e.pool, words[KeySlot(arrayN, j)], t.keys[j]);
    }
  }

  lemma {:induction false} ArrayStep(d: Doc, e: Doc, t: Value, i: nat, types: bytes, words: seq<word>, tag: byte,
      w: word)
    requires t.Table? && |t.keys| <= |t.items| && i < |t.items| - |t.keys|
    requires ItemsDone(d, t, i, types, words) && Extends(d, e)
    requires tag == TypeCode(t.items[i]) && RepVal(e, w, t.items[i])
    ensures ItemsDone(e, t, i + 1, types + [tag], words + [w])
  {
    ItemsDoneExtends(d, e, t, i, types, words);
  }

  lemma {:induction false} DictStep(d: Doc, e: Doc, t: Value, i: nat, types: bytes, words: seq<word>, k: word,
      tag: byte, w: word)
    requires t.Table? && |t.keys| <= |t.items| && |t.items| - |t.keys| <= i < |t.items|
    requires ItemsDone(d, t, i, types, words) && Extends(d, e)
    requires PoolHas(e.pool, k, t.keys[i - (|t.items| - |t.keys|)])
    requires tag == TypeCode(t.items[i]) && RepVal(e, w, t.items[i])
    ensures ItemsDone(e, t, i + 1, types + [tag], words + [k, w])
  {
    ItemsDoneExtends(d, e, t, i, types, words);
  }

  lemma {:induction false} ItemsDoneRep(d: Doc, t: Value, types: bytes, words: seq<word>)
    requires t.Table? && |t.keys| <= |t.items| && |t.items| < WORD
    requires ItemsDone(d, t, |t.items|, types, words)
    requires t.id in d.tables
    requires Reads(d.tables[t.id], |t.items| - |t.keys|, |t.keys|, types, words)
    ensures RepTable(d, t)
    ensures |d.tables[t.id]| == BlobSize(|t.items| - |t.keys|, |t.keys|)
  {
    var b, n, dictN := d.tables[t.id], |t.items|, |t.keys|;
    forall i | 0 <= i < n
      ensures b[8 + i] == TypeCode(t.items[i])
    {
      assert types[i] == TypeCode(t.items[i]);
    }
    assert Shape(b, t.items, dictN);
    forall i | 0 <= i < n
      ensures RepVal(d, BodyWord(b, n, SlotOf(n - dictN, i)), t.items[i])
    {
      assert SlotOf(n - dictN, i) < |words|;
      assert BodyWord(b, n, SlotOf(n - dictN, i)) == words[SlotOf(n - dictN, i)];
    }
    forall j | 0 <= j < dictN
      ensures PoolHas(d.pool, BodyWord(b, n, KeySlot(n - dictN, j)), t.keys[j])
    {
      assert KeySlot(n - dictN, j) < |words|;
      assert BodyWord(b, n, KeySlot(n - dictN, j)) == words[KeySlot(n - dictN, j)];
    }
  }

  lemma {:induction false} GrewFilled(ts: seq<bytes>, p: bytes, us: seq<bytes>, q: bytes, b: bytes)
    requires Grew(ts + [[]], p, us, q)
    ensures |ts| < |us| && us[|ts|] == [] && Grew(ts, p, us[|ts| := b], q)
  {
  }

  method EncodeFinal(arrayN: word, dictN: word, types: bytes, words: seq<word>) returns (b: bytes)
    requires |types| == arrayN + dictN && |words| == arrayN + 2 * dictN
    ensures b == Encoded(arrayN, dictN, types, words)
    ensures Reads(b, arrayN, dictN, types, words) && Exact(b)
  {
    b := Pack(arrayN) + Pack(dictN) + types + Zeros(Align4(8 + |types|) - 8 - |types|) + PackAll(words);
    assert b == Encoded(arrayN, dictN, types, words);
    EncodedReads(arrayN, dictN, types, words);
  }

  // ----- The bytes of a dump -----

  // Where a string begins in the pool.
  function OffsetIn(ss: seq<bytes>, s: bytes): nat {
    if ss == [] then 0
    else if s in ss[..|ss| - 1] then OffsetIn(ss[..|ss| - 1], s)
    else |PoolOf(ss[..|ss| - 1])|
  }

  lemma {:induction false} OffsetAdded(ss: seq<bytes>, s: bytes)
    ensures forall x | x in ss :: OffsetIn(ss + [s], x) == OffsetIn(ss, x)
    ensures s !in ss ==> OffsetIn(ss + [s], s) == |PoolOf(ss)|
  {
    assert (ss + [s])[..|ss|] == ss;
  }

  lemma {:induction false} OffsetPrefix(ss: seq<bytes>, us: seq<bytes>, s: bytes)
    requires ss <= us && s in ss
    ensures OffsetIn(us, s) == OffsetIn(ss, s)
    decreases |us|
  {
    if |us| > |ss| {
      var front := us[..|us| - 1];
      OffsetPrefix(ss, front, s);
      assert s == front[..|ss|][First(ss, s)];
    } else {
      assert us == ss;
    }
  }

  function First(ss: seq<bytes>, s: bytes): (i: nat)
    requires s in ss
    ensures i < |ss| && ss[i] == s
  {
    if ss[0] == s then 0 else 1 + First(ss[1..], s)
  }

  function AsWord(x: int): word { if 0 <= x < WORD then x else 0 }

  // The word that stands for a value of a numbered tree, `pool` being the strings of the document.
  function WordOf(v: Value, pool: seq<bytes>): word {
    match v
    case Int(i) => AsWord(if i < 0 then i + WORD else i)
    case Real(bits) => bits
    case Bool(b) => if b then 0x0100_0000 else 0
    case Str(s) => AsWord(OffsetIn(pool, s))
    case Table(id, _, _) => AsWord(id)
  }

  function TypesOf(items: seq<Value>, i: nat): bytes
    requires i <= |items|
  {
    if i == 0 then [] else TypesOf(items, i - 1) + [TypeCode(items[i - 1])]
  }

  // The words of the first `i` items; those under a key come after it.
  function WordsOf(items: seq<Value>, keys: seq<bytes>, i: nat, pool: seq<bytes>): seq<word>
    requires i <= |items| && |keys| <= |items|
  {
    if i == 0 then []
    else
      var before, j, w := WordsOf(items, keys, i - 1, pool), i - 1 - (|items| - |keys|), WordOf(items[i - 1], pool);
      before + if j < 0 then [w] else [AsWord(OffsetIn(pool, keys[j])), w]
  }

  function BlobOf(t: Value, pool: seq<bytes>): bytes
    requires t.Table? && |t.keys| <= |t.items|
  {
    Encoded(AsWord(|t.items| - |t.keys|), AsWord(|t.keys|), TypesOf(t.items, |t.items|),
        WordsOf(t.items, t.keys, |t.items|, pool))
  }

  // The encoded tables of a numbered tree, each before its sub-tables.
  function BlobList(v: Value, pool: seq<bytes>): seq<bytes>
    decreases v, 0
  {
    if v.Table? && |v.keys| <= |v.items| then [BlobOf(v, pool)] + BlobListUpTo(v.items, |v.items|, pool) else []
  }

  function BlobListUpTo(items: seq<Value>, i: nat, pool: seq<bytes>): seq<bytes>
    requires i <= |items|
    decreases items, i
  {
    if i == 0 then [] else BlobListUpTo(items, i - 1, pool) + BlobList(items[i - 1], pool)
  }

  ghost function FileBytes(tables: seq<bytes>, pool: bytes): bytes {
    if |Flat(tables)| < WORD then
      Pack(AsWord(8 + 4 * |tables| + |Flat(tables)|)) + Pack(AsWord(|tables|)) + PackAll(Offsets(tables)) + Flat(tables)
      + pool
    else []
  }

  // The file that dump makes of a tree, byte by byte.
  ghost function DumpBytes(t: Value): bytes {
    FileBytes(BlobList(Number(t, 0), Strings(t, [])), JoinNul(Strings(t, [])) + [0])
  }

  // `i` items of the numbered table `n` are written: their types, their words, and after `base` the tables in
  // them.
  ghost predicate Written(n: Value, i: nat, pool: seq<bytes>, types: bytes, words: seq<word>, base: seq<bytes>,
      tables: seq<bytes>)
  {
    && n.Table? && |n.keys| <= |n.items| && i <= |n.items|
    && types == TypesOf(n.items, i) && words == WordsOf(n.items, n.keys, i, pool)
    && tables == base + BlobListUpTo(n.items, i, pool)
  }

  lemma {:induction false} WrittenNone(n: Value, pool: seq<bytes>, base: seq<bytes>)
    requires n.Table? && |n.keys| <= |n.items|
    ensures Written(n, 0, pool, [], [], base, base)
  {
  }

  lemma {:induction false} WrittenItem(n: Value, i: nat, pool: seq<bytes>, types: bytes, words: seq<word>,
      base: seq<bytes>, tables: seq<bytes>, tag: byte, w: word)
    requires Written(n, i, pool, types, words, base, tables) && i < |n.items| - |n.keys|
    requires tag == TypeCode(n.items[i]) && w == WordOf(n.items[i], pool)
    ensures Written(n, i + 1, pool, types + [tag], words + [w], base, tables + BlobList(n.items[i], pool))
  {
    hide BlobList;
    hide WordOf;
    hide TypeCode;
  }

  lemma {:induction false} WrittenPair(n: Value, i: nat, pool: seq<bytes>, types: bytes, words: seq<word>,
      base: seq<bytes>, tables: seq<bytes>, k: word, tag: byte, w: word)
    requires Written(n, i, pool, types, words, base, tables) && |n.items| - |n.keys| <= i < |n.items|
    requires tag == TypeCode(n.items[i]) && w == WordOf(n.items[i], pool)
    requires k == AsWord(OffsetIn(pool, n.keys[i - (|n.items| - |n.keys|)]))
    ensures Written(n, i + 1, pool, types + [tag], words + [k, w], base, tables + BlobList(n.items[i], pool))
  {
    hide BlobList;
    hide WordOf;
    hide TypeCode;
    hide OffsetIn;
    hide AsWord;
  }

  // The place of the table itself is filled.
  lemma {:induction false} WrittenTable(n: Value, pool: seq<bytes>, types: bytes, words: seq<word>, ts: seq<bytes>,
      tables: seq<bytes>)
    requires n.Table? && Written(n, |n.items|, pool, types, words, ts + [[]], tables)
    requires |n.items| - |n.keys| < HALF && |n.keys| < HALF
    ensures |ts| < |tables|
    ensures tables[|ts| := Encoded(|n.items| - |n.keys|, |n.keys|, types, words)] == ts + BlobList(n, pool)
  {
    hide Encoded;
    hide TypesOf;
    hide WordsOf;
    hide BlobListUpTo;
  }

  lemma IsWord(x: word)
    ensures AsWord(x) == x
  {
  }

  lemma AddedHas(ss: seq<bytes>, s: bytes)
    ensures s in Added(ss, s)
  {
  }

  lemma {:induction false} StringsMore(items: seq<Value>, keys: seq<bytes>, i: nat, j: nat, ss: seq<bytes>)
    requires i <= j <= |items| && |keys| <= |items|
    ensures StringsUpTo(items, keys, i, ss) <= StringsUpTo(items, keys, j, ss)
    decreases j
  {
    if i < j {
      var before := StringsUpTo(items, keys, j - 1, ss);
      StringsMore(items, keys, i, j - 1, ss);
      StringsGrow(items[j - 1],
        if j - 1 < |items| - |keys| then before else Added(before, keys[j - 1 - (|items| - |keys|)]));
    }
  }

  // Tables and strings have only been added.
  ghost predicate Grew(ts: seq<bytes>, p: bytes, us: seq<bytes>, q: bytes) {
    ts <= us && p <= q
  }

  lemma {:induction false} GrewExtends(ts: seq<bytes>, p: bytes, us: seq<bytes>, q: bytes)
    requires Grew(ts, p, us, q)
    ensures Extends(DocOf(ts, p), DocOf(us, q))
  {
  }

  lemma {:induction false} DocOfPool(ts: seq<bytes>, p: bytes)
    ensures DocOf(ts, p).pool == p
  {
  }

  lemma {:induction false} GrewPool(ts: seq<bytes>, p: bytes, us: seq<bytes>, q: bytes)
    requires Grew(ts, p, us, q)
    ensures p <= q
  {
  }

  lemma {:induction false} GrewSame(ts: seq<bytes>, p: bytes)
    ensures Grew(ts, p, ts, p)
  {
  }

  lemma {:induction false} GrewTwice(ts: seq<bytes>, p: bytes, us: seq<bytes>, q: bytes, vs: seq<bytes>, r: bytes)
    requires Grew(ts, p, us, q) && Grew(us, q, vs, r)
    ensures Grew(ts, p, vs, r)
  {
  }

  class Dumper {
    var tables: seq<bytes>        // doc.table; an unfinished table is empty
    var strings: seq<bytes>       // the list part of doc.strings
    var offsets: map<bytes, nat>  // the hash part of doc.strings
    var offset: nat               // doc.offset

    constructor ()
      ensures tables == [] && strings == [] && offsets == map[] && offset == 0
      ensures Valid()
    {
      tables, strings, offsets, offset := [], [], map[], 0;
    }

    // Each string is stored once and `offsets` finds it; no table has bytes to spare.
    ghost predicate Valid()
      reads this
    {
      && offset == |PoolOf(strings)|
      && Distinct(strings)
      && Placed(strings)
      && (forall s :: s in offsets <==> s in strings)
      && (forall s | s in offsets :: PoolHas(PoolOf(strings), offsets[s], s) && offsets[s] < WORD)
      && (forall s | s in offsets :: offsets[s] == OffsetIn(strings, s))
      && (forall k | 0 <= k < |tables| :: tables[k] == [] || Exact(tables[k]))
    }

    ghost function Pool(): bytes
      reads this
    {
      PoolOf(strings)
    }

    method Intern(s: bytes) returns (off: nat)
      requires Valid() && NoNul(s)
      modifies this`strings, this`offsets, this`offset
      ensures PoolHas(PoolOf(strings), off, s) && PoolOf(old(strings)) <= PoolOf(strings)
      ensures strings == Added(old(strings), s) && off == OffsetIn(strings, s)
      ensures (off < WORD <==> Placed(strings)) && (off < WORD ==> Valid())
    {
      if s in offsets {
        off := offsets[s];
      } else {
        off := offset;
        PlacedAdded(strings, s);
        OffsetAdded(strings, s);
        offset := off + |s| + 1;
        offsets := offsets[s := off];
        strings := strings + [s];
        assert strings[..|strings| - 1] == old(strings);
        forall x | x in old(offsets)
          ensures PoolHas(PoolOf(strings), offsets[x], x)
        {
          PoolHasExtends(PoolOf(old(strings)), PoolOf(strings), offsets[x], x);
        }
      }
    }

    method EncodeString(s: bytes) returns (r: Result<word>)
      requires Valid() && NoNul(s)
      modifies this`strings, this`offsets, this`offset
      ensures r.Ok? ==>
        && Valid()
        && Grew(tables, old(Pool()), tables, Pool())
        && PoolHas(Pool(), r.value, s)
        && strings == Added(old(strings), s) && r.value == OffsetIn(strings, s)
      ensures r.Overflow? ==> !Placed(Added(old(strings), s))
    {
      var off := Intern(s);
      if off >= WORD {
        return Overflow;
      }
      return Ok(off);
    }

    method Encode(v: Value, ghost pool: seq<bytes>) returns (r: Result<(byte, word)>)
      requires Valid() && Plain(v) && Strings(v, strings) <= pool
      modifies this
      ensures r.Ok? ==>
        && Valid()
        && Grew(old(tables), old(Pool()), tables, Pool())
        && r.value.0 == TypeCode(v)
        && RepVal(DocOf(tables, Pool()), r.value.1, Number(v, old(|tables|)))
        && |tables| == old(|tables|) + Tables(v)
        && |Flat(tables)| == old(|Flat(tables)|) + Blobs(v)
        && strings == Strings(v, old(strings))
        && r.value.1 == WordOf(Number(v, old(|tables|)), pool)
        && tables == old(tables) + BlobList(Number(v, old(|tables|)), pool)
      ensures r.Overflow? ==> !Fits(old(|tables|) + Tables(v), Blobs(v), Strings(v, old(strings)))
      decreases v, 1, 0
    {
      hide PoolOf;
      hide Placed;
      hide PoolHas;
      hide BlobsUpTo;
      hide StringsUpTo;
      hide TablesUpTo;
      hide Exact;
      hide RepTable;
      hide BlobSize;
      hide BlobListUpTo;
      hide BlobOf;
      hide OffsetIn;
      NumberRoot(v, |tables|);
      match v
      case Table(_, _, _) =>
        var t := DumpTable(v, pool);
        if t.Overflow? || t.value >= HALF {
          return Overflow;
        }
        return Ok((4, t.value));
      case Int(i) =>
        return Ok((1, FromSigned(i)));
      case Real(bits) =>
        return Ok((2, bits));
      case Bool(b) =>
        return Ok((3, if b then 0x0100_0000 else 0));
      case Str(s) =>
        var w := EncodeString(s);
        if w.Overflow? {
          return Overflow;
        }
        AddedHas(old(strings), s);
        OffsetPrefix(strings, pool, s);
        return Ok((5, w.value));
    }

    // Item `i` of the array part of `t`: `words` grows by its word.
    method EncodeItemOf(t: Value, ghost n: Value, ghost index: nat, i: nat, types: bytes, ghost words: seq<word>,
      ghost ss: seq<bytes>, ghost pool: seq<bytes>, ghost base: seq<bytes>)
      returns (r: Result<(byte, word)>)
      requires Valid() && Plain(t) && t.Table? && n == Number(t, index) && i < |t.items| - |t.keys|
      requires |tables| == index + 1 + TablesUpTo(t.items, i)
      requires ItemsDone(DocOf(tables, Pool()), n, i, types, words)
      requires strings == StringsUpTo(t.items, t.keys, i, ss) && |t.keys| <= |t.items|
      requires StringsUpTo(t.items, t.keys, |t.items|, ss) <= pool
      requires Written(n, i, pool, types, words, base, tables)
      modifies this
      ensures r.Ok? ==>
        && Valid()
        && Grew(old(tables), old(Pool()), tables, Pool())
        && |tables| == index + 1 + TablesUpTo(t.items, i + 1)
        && ItemsDone(DocOf(tables, Pool()), n, i + 1, types + [r.value.0], words + [r.value.1])
        && |Flat(tables)| == old(|Flat(tables)|) + Blobs(t.items[i])
        && strings == StringsUpTo(t.items, t.keys, i + 1, ss)
        && Written(n, i + 1, pool, types + [r.value.0], words + [r.value.1], base, tables)
      ensures r.Overflow? ==> !FitsTo(t, index, i + 1, ss)
      decreases t, 0, 0
    {
      hide *;
      TableSize(t, ss);
      ItemStep(t, i);
      ItemFits(t, index, i, ss);
      NumberItems(t, index);
      StringsMore(t.items, t.keys, i + 1, |t.items|, ss);
      r := Encode(t.items[i], pool);
      if r.Ok? {
        GrewExtends(old(tables), old(Pool()), tables, Pool());
        WrittenItem(n, i, pool, types, words, base, old(tables), r.value.0, r.value.1);
        ArrayStep(DocOf(old(tables), old(Pool())), DocOf(tables, Pool()), n, i, types, words, r.value.0, r.value.1);
      }
    }

    // The array part of `t`, whose place in the table list is already taken.
    method EncodeArray(t: Value, ghost n: Value, ghost index: nat, ghost pool: seq<bytes>)
      returns (r: Result<(bytes, seq<word>)>)
      requires Valid() && Plain(t) && t.Table?
      requires |tables| == index + 1 && n == Number(t, index) && Strings(t, strings) <= pool
      modifies this
      ensures r.Ok? ==>
        && Valid()
        && Grew(old(tables), old(Pool()), tables, Pool())
        && |tables| == index + 1 + TablesUpTo(t.items, |t.items| - |t.keys|)
        && ItemsDone(DocOf(tables, Pool()), n, |t.items| - |t.keys|, r.value.0, r.value.1)
        && |Flat(tables)| == old(|Flat(tables)|) + BlobsUpTo(t.items, |t.items| - |t.keys|)
        && strings == StringsUpTo(t.items, t.keys, |t.items| - |t.keys|, old(strings))
        && Written(n, |t.items| - |t.keys|, pool, r.value.0, r.value.1, old(tables), tables)
      ensures r.Overflow? ==> !FitsTo(t, index, |t.items|, old(strings))
      decreases t, 0, 1
    {
      hide *;
      TableSize(t, strings);
      ghost var ss := strings;
      NumberItems(t, index);
      ItemsDoneNone(DocOf(tables, Pool()), n);
      GrewSame(tables, Pool());
      WrittenNone(n, pool, tables);
      var types, words := [], [];
      var i := 0;
      while i < |t.items| - |t.keys|
        invariant 0 <= i <= |t.items| - |t.keys|
        invariant Valid() && Grew(old(tables), old(Pool()), tables, Pool())
        invariant |tables| == index + 1 + TablesUpTo(t.items, i)
        invariant ItemsDone(DocOf(tables, Pool()), n, i, types, words)
        invariant |Flat(tables)| == old(|Flat(tables)|) + BlobsUpTo(t.items, i)
        invariant strings == StringsUpTo(t.items, t.keys, i, ss)
        invariant Written(n, i, pool, types, words, old(tables), tables)
      {
        ghost var before, was := tables, Pool();
        ItemStep(t, i);
        var e := EncodeItemOf(t, n, index, i, types, words, ss, pool, old(tables));
        if e.Overflow? {
          NotFitsTo(t, index, i + 1, ss);
          return Overflow;
        }
        GrewTwice(old(tables), old(Pool()), before, was, tables, Pool());
        types, words, i := types + [e.value.0], words + [e.value.1], i + 1;
      }
      return Ok((types, words));
    }

    // One key-value pair: the offset of the key, the type and the word of the value.
    method EncodePair(k: bytes, v: Value, ghost pool: seq<bytes>) returns (r: Result<(word, byte, word)>)
      requires Valid() && NoNul(k) && Plain(v) && Strings(v, Added(strings, k)) <= pool
      modifies this
      ensures r.Ok? ==>
        && Valid()
        && Grew(old(tables), old(Pool()), tables, Pool())
        && PoolHas(Pool(), r.value.0, k)
        && r.value.1 == TypeCode(v)
        && RepVal(DocOf(tables, Pool()), r.value.2, Number(v, old(|tables|)))
        && |tables| == old(|tables|) + Tables(v)
        && |Flat(tables)| == old(|Flat(tables)|) + Blobs(v)
        && strings == Strings(v, Added(old(strings), k))
        && r.value.0 == AsWord(OffsetIn(pool, k)) && r.value.2 == WordOf(Number(v, old(|tables|)), pool)
        && tables == old(tables) + BlobList(Number(v, old(|tables|)), pool)
      ensures r.Overflow? ==> !Fits(old(|tables|) + Tables(v), Blobs(v), Strings(v, Added(old(strings), k)))
      decreases v, 1, 1
    {
      hide *;
      var w := EncodeString(k);
      if w.Overflow? {
        NotPlaced(v, Added(old(strings), k), |tables| + Tables(v));
        return Overflow;
      }
      ghost var middle, ts := Pool(), tables;
      AddedHas(old(strings), k);
      StringsGrow(v, strings);
      OffsetPrefix(strings, pool, k);
      IsWord(w.value);
      var e := Encode(v, pool);
      if e.Overflow? {
        return Overflow;
      }
      GrewPool(ts, middle, tables, Pool());
      GrewTwice(old(tables), old(Pool()), ts, middle, tables, Pool());
      PoolHasExtends(middle, Pool(), w.value, k);
      return Ok((w.value, e.value.0, e.value.1));
    }

    // Item `i` of `t`, under a key: `words` grows by its key and its value.
    method EncodePairOf(t: Value, ghost n: Value, ghost index: nat, i: nat, types: bytes, ghost words: seq<word>,
      ghost ss: seq<bytes>, ghost pool: seq<bytes>, ghost base: seq<bytes>)
      returns (r: Result<(word, byte, word)>)
      requires Valid() && Plain(t) && t.Table? && n == Number(t, index) && |t.items| - |t.keys| <= i < |t.items|
      requires |tables| == index + 1 + TablesUpTo(t.items, i)
      requires ItemsDone(DocOf(tables, Pool()), n, i, types, words)
      requires strings == StringsUpTo(t.items, t.keys, i, ss) && |t.keys| <= |t.items|
      requires StringsUpTo(t.items, t.keys, |t.items|, ss) <= pool
      requires Written(n, i, pool, types, words, base, tables)
      modifies this
      ensures r.Ok? ==>
        && Valid()
        && Grew(old(tables), old(Pool()), tables, Pool())
        && |tables| == index + 1 + TablesUpTo(t.items, i + 1)
        && ItemsDone(DocOf(tables, Pool()), n, i + 1, types + [r.value.1], words + [r.value.0, r.value.2])
        && |Flat(tables)| == old(|Flat(tables)|) + Blobs(t.items[i])
        && strings == StringsUpTo(t.items, t.keys, i + 1, ss)
        && Written(n, i + 1, pool, types + [r.value.1], words + [r.value.0, r.value.2], base, tables)
      ensures r.Overflow? ==> !FitsTo(t, index, i + 1, ss)
      decreases t, 0, 0
    {
      hide *;
      TableSize(t, ss);
      ItemStep(t, i);
      ItemFits(t, index, i, ss);
      NumberItems(t, index);
      StringsMore(t.items, t.keys, i + 1, |t.items|, ss);
      r := EncodePair(t.keys[i - (|t.items| - |t.keys|)], t.items[i], pool);
      if r.Ok? {
        GrewExtends(old(tables), old(Pool()), tables, Pool());
        DocOfPool(tables, Pool());
        WrittenPair(n, i, pool, types, words, base, old(tables), r.value.0, r.value.1, r.value.2);
        DictStep(DocOf(old(tables), old(Pool())), DocOf(tables, Pool()), n, i, types, words, r.value.0, r.value.1,
            r.value.2);
      }
    }

    // The key-value pairs of `t`, after its array part: one more type and two more words a pair.
    method EncodeDict(t: Value, ghost n: Value, ghost index: nat, types_: bytes, words_: seq<word>,
      ghost ss: seq<bytes>, ghost pool: seq<bytes>, ghost base: seq<bytes>)
      returns (r: Result<(bytes, seq<word>)>)
      requires Valid() && Plain(t) && t.Table? && n == Number(t, index)
      requires |tables| == index + 1 + TablesUpTo(t.items, |t.items| - |t.keys|)
      requires ItemsDone(DocOf(tables, Pool()), n, |t.items| - |t.keys|, types_, words_)
      requires strings == StringsUpTo(t.items, t.keys, |t.items| - |t.keys|, ss) && Strings(t, ss) <= pool
      requires Written(n, |t.items| - |t.keys|, pool, types_, words_, base, tables)
      modifies this
      ensures r.Ok? ==>
        && Valid()
        && Grew(old(tables), old(Pool()), tables, Pool())
        && |tables| == index + 1 + TablesUpTo(t.items, |t.items|)
        && ItemsDone(DocOf(tables, Pool()), n, |t.items|, r.value.0, r.value.1)
        && |Flat(tables)| + BlobsUpTo(t.items, |t.items| - |t.keys|) ==
           old(|Flat(tables)|) + BlobsUpTo(t.items, |t.items|)
        && strings == StringsUpTo(t.items, t.keys, |t.items|, ss)
        && Written(n, |t.items|, pool, r.value.0, r.value.1, base, tables)
      ensures r.Overflow? ==> !FitsTo(t, index, |t.items|, ss)
      decreases t, 0, 1
    {
      hide *;
      TableSize(t, ss);
      NumberItems(t, index);
      GrewSame(tables, Pool());
      var types, words := types_, words_;
      var i := |t.items| - |t.keys|;
      while i < |t.items|
        invariant |t.items| - |t.keys| <= i <= |t.items|
        invariant Valid() && Grew(old(tables), old(Pool()), tables, Pool())
        invariant |tables| == index + 1 + TablesUpTo(t.items, i)
        invariant ItemsDone(DocOf(tables, Pool()), n, i, types, words)
        invariant |Flat(tables)| + BlobsUpTo(t.items, |t.items| - |t.keys|) ==
          old(|Flat(tables)|) + BlobsUpTo(t.items, i)
        invariant strings == StringsUpTo(t.items, t.keys, i, ss)
        invariant Written(n, i, pool, types, words, base, tables)
      {
        ghost var before, was := tables, Pool();
        ItemStep(t, i);
        var e := EncodePairOf(t, n, index, i, types, words, ss, pool, base);
        if e.Overflow? {
          NotFitsTo(t, index, i + 1, ss);
          return Overflow;
        }
        GrewTwice(old(tables), old(Pool()), before, was, tables, Pool());
        var (k, tag, w) := e.value;
        types, words, i := types + [tag], words + [k, w], i + 1;
      }
      return Ok((types, words));
    }

    // doc.table[index] = false
    method Reserve()
      requires Valid()
      modifies this`tables
      ensures Valid() && tables == old(tables) + [[]]
      ensures |Flat(tables)| == old(|Flat(tables)|) && Pool() == old(Pool())
    {
      tables := tables + [[]];
      assert tables[..|tables| - 1] == old(tables);
    }

    // Fill the place of table `index`.
    method Finish(index: nat, arrayN: word, dictN: word, types: bytes, words: seq<word>)
      requires Valid() && index < |tables| && tables[index] == []
      requires |types| == arrayN + dictN && |words| == arrayN + 2 * dictN
      modifies this`tables
      ensures Valid()
      ensures tables == old(tables)[index := Encoded(arrayN, dictN, types, words)]
      ensures Extends(DocOf(old(tables), old(Pool())), DocOf(tables, Pool()))
      ensures index in DocOf(tables, Pool()).tables && Pool() == old(Pool())
      ensures Reads(DocOf(tables, Pool()).tables[index], arrayN, dictN, types, words)
      ensures |Flat(tables)| == old(|Flat(tables)|) + |DocOf(tables, Pool()).tables[index]|
    {
      hide Reads;
      hide PoolHas;
      hide PackAll;
      var b := EncodeFinal(arrayN, dictN, types, words);
      FlatUpdate(tables, index, b);
      DocOfExtends(tables, tables[index := b], PoolOf(strings), PoolOf(strings));
      tables := tables[index := b];
    }

    // The types and the words of `t`, its array part and its pairs.
    method EncodeBody(t: Value, ghost n: Value, ghost index: nat, ghost pool: seq<bytes>)
      returns (r: Result<(bytes, seq<word>)>)
      requires Valid() && Plain(t) && t.Table?
      requires |tables| == index + 1 && n == Number(t, index) && Strings(t, strings) <= pool
      modifies this
      ensures r.Ok? ==>
        && Valid()
        && Grew(old(tables), old(Pool()), tables, Pool())
        && |tables| == index + Tables(t)
        && ItemsDone(DocOf(tables, Pool()), n, |t.items|, r.value.0, r.value.1)
        && |Flat(tables)| == old(|Flat(tables)|) + BlobsUpTo(t.items, |t.items|)
        && strings == Strings(t, old(strings))
        && Written(n, |t.items|, pool, r.value.0, r.value.1, old(tables), tables)
      ensures r.Overflow? ==> !FitsTo(t, index, |t.items|, old(strings))
      decreases t, 0, 2
    {
      hide *;
      TableSize(t, strings);
      NumberItems(t, index);
      var a := EncodeArray(t, n, index, pool);
      if a.Overflow? {
        return Overflow;
      }
      ghost var middle, was := tables, Pool();
      r := EncodeDict(t, n, index, a.value.0, a.value.1, old(strings), pool, old(tables));
      if r.Ok? {
        GrewTwice(old(tables), old(Pool()), middle, was, tables, Pool());
      }
    }

    method DumpTable(t: Value, ghost pool: seq<bytes>) returns (r: Result<nat>)
      requires Valid() && Plain(t) && t.Table? && Strings(t, strings) <= pool
      modifies this
      ensures r.Ok? ==>
        && Valid()
        && Grew(old(tables), old(Pool()), tables, Pool())
        && r.value == old(|tables|)
        && RepTable(DocOf(tables, Pool()), Number(t, r.value))
        && |tables| == old(|tables|) + Tables(t)
        && |Flat(tables)| == old(|Flat(tables)|) + Blobs(t)
        && strings == Strings(t, old(strings))
        && tables == old(tables) + BlobList(Number(t, r.value), pool)
      ensures r.Overflow? ==> !Fits(old(|tables|) + Tables(t), Blobs(t), Strings(t, old(strings)))
      decreases t, 0, 3
    {
      hide *;
      Limits();
      TableSize(t, strings);
      var index := |tables|;
      Reserve();
      ghost var n, was := Number(t, index), Pool();
      NumberItems(t, index);
      var body := EncodeBody(t, n, index, pool);
      if body.Overflow? || |t.items| - |t.keys| >= HALF || |t.keys| >= HALF {
        NotFits(t, index, old(strings));
        return Overflow;
      }
      var (types, words) := body.value;
      ItemsDoneSize(DocOf(tables, Pool()), n, types, words);
      ghost var d := DocOf(tables, Pool());
      WrittenTable(n, pool, types, words, old(tables), tables);
      GrewFilled(old(tables), was, tables, Pool(), Encoded(|t.items| - |t.keys|, |t.keys|, types, words));
      Finish(index, |t.items| - |t.keys|, |t.keys|, types, words);
      ItemsDoneExtends(d, DocOf(tables, Pool()), n, |t.items|, types, words);
      ItemsDoneRep(DocOf(tables, Pool()), n, types, words);
      return Ok(index);
    }
  }

  // `v` is what dumping `t` writes: the tables in the order they are numbered.
  ghost predicate DumpFile(v: bytes, t: Value, tables: seq<bytes>, pool: bytes) {
    && Plain(t) && t.Table?
    && |tables| == Tables(t)
    && (forall k | 0 <= k < |tables| :: Exact(tables[k]))
    && |Flat(tables)| < WORD
    && FileIs(v, Offsets(tables), tables, pool)
    && pool != [] && pool[|pool| - 1] == 0
    && RepTable(DocOf(tables, pool), Number(t, 0))
  }

  ghost predicate IsDumpOf(v: bytes, t: Value) {
    exists tables, pool :: DumpFile(v, t, tables, pool)
  }

  // Every table of a numbered tree is encoded, so none of its places is empty.
  lemma {:induction false} NoneEmpty(tables: seq<bytes>, pool: bytes, t: Value, k: nat)
    requires Plain(t) && t.Table? && k < Tables(t)
    requires RepTable(DocOf(tables, pool), Number(t, 0))
    ensures k < |tables| && tables[k] != []
  {
    var p := NumberCovers(t, 0, k);
    SubRep(DocOf(tables, pool), Number(t, 0), p);
  }

  // The index table of the finished document.
  method IndexOf(tables: seq<bytes>) returns (r: Result<(seq<word>, nat)>)
    ensures r.Ok? <==> 8 + 4 * |tables| + |Flat(tables)| < WORD
    ensures r.Ok? ==> r.value == (Offsets(tables), |Flat(tables)|)
  {
    var index: seq<word>, offset := [], 0;
    for i := 0 to |tables|
      invariant |index| == i && offset == Offset(tables, i)
      invariant forall k | 0 <= k < i :: index[k] == Offset(tables, k)
    {
      FlatAt(tables, i);
      if offset >= WORD {
        return Overflow;
      }
      index, offset := index + [offset], offset + |tables[i]|;
    }
    assert tables[..|tables|] == tables;
    if 4 + 4 + 4 * |tables| + offset >= WORD {
      return Overflow;
    }
    assert index == Offsets(tables);
    return Ok((index, offset));
  }

  method Assemble(tables: seq<bytes>, strings: seq<bytes>) returns (r: Result<bytes>)
    ensures r.Ok? <==> 8 + 4 * |tables| + |Flat(tables)| < WORD
    ensures r.Ok? ==> FileIs(r.value, Offsets(tables), tables, JoinNul(strings) + [0])
    ensures r.Ok? ==> |r.value| == 8 + 4 * |tables| + |Flat(tables)| + |JoinNul(strings)| + 1
  {
    var index := IndexOf(tables);
    if index.Overflow? {
      return Overflow;
    }
    var n := |tables|;
    return Ok(Pack(4 + 4 + 4 * n + index.value.1) + Pack(n) + PackAll(index.value.0) + Flat(tables)
              + (JoinNul(strings) + [0]));
  }

  // A finished dumper holds a document.
  lemma {:induction false} FinishedIsDump(doc: Dumper, root: Value, v: bytes)
    requires Plain(root) && root.Table? && doc.Valid()
    requires |doc.tables| == Tables(root) && |Flat(doc.tables)| < WORD
    requires RepTable(DocOf(doc.tables, doc.Pool()), Number(root, 0))
    requires FileIs(v, Offsets(doc.tables), doc.tables, JoinNul(doc.strings) + [0])
    ensures IsDumpOf(v, root)
  {
    hide RepTable;
    var tables, pool := doc.tables, JoinNul(doc.strings) + [0];
    JoinIsPool(doc.strings);
    DocOfExtends(tables, tables, PoolOf(doc.strings), pool);
    RepTableExtends(DocOf(doc.tables, doc.Pool()), DocOf(tables, pool), Number(root, 0));
    forall k | 0 <= k < |tables|
      ensures Exact(tables[k])
    {
      NoneEmpty(tables, pool, root, k);
    }
    assert DumpFile(v, root, tables, pool);
  }

  lemma FileIsBytes(v: bytes, tables: seq<bytes>, pool: bytes)
    requires |Flat(tables)| < WORD && FileIs(v, Offsets(tables), tables, pool)
    ensures v == FileBytes(tables, pool)
  {
  }

  method Dump(root: Value) returns (r: Result<bytes>)
    requires Plain(root) && root.Table?
    ensures r.Ok? <==> 8 + 4 * Tables(root) + Blobs(root) < WORD && Placed(Strings(root, []))
    ensures r.Ok? ==> IsDumpOf(r.value, root) && r.value == DumpBytes(root)
    ensures r.Ok? ==> |r.value| == 8 + 4 * Tables(root) + Blobs(root) + |JoinNul(Strings(root, []))| + 1
  {
    hide RepTable;
    hide IsDumpOf;
    hide FileIs;
    hide Number;
    hide Plain;
    hide Blobs;
    hide Strings;
    hide Placed;
    hide BlobList;
    BlobsTables(root);
    hide Tables;
    var doc := new Dumper();
    var d := doc.DumpTable(root, Strings(root, []));
    if d.Overflow? {
      return Overflow;
    }
    r := Assemble(doc.tables, doc.strings);
    if r.Ok? {
      FinishedIsDump(doc, root, r.value);
      FileIsBytes(r.value, doc.tables, JoinNul(doc.strings) + [0]);
      assert [] + BlobList(Number(root, 0), Strings(root, [])) == BlobList(Number(root, 0), Strings(root, []));
    }
  }

  // The base law of the format: a dumped tree is in the file, numbered in preorder.
  lemma {:induction false} DumpRepresents(v: bytes, t: Value)
    requires IsDumpOf(v, t)
    ensures Represents(v, Number(t, 0))
  {
    var tables, pool :| DumpFile(v, t, tables, pool);
    var n := Number(t, 0);
    hide RepTable;
    hide FileIs;
    hide FileDoc;
    hide Number;
    hide TableAt;
    FileIsReads(v, Offsets(tables), tables, pool);
    forall k | 0 <= k < |tables|
      ensures k in FileDoc(v).tables && tables[k] <= FileDoc(v).tables[k]
    {
      FileIsTable(v, Offsets(tables), tables, pool, k, k);
    }
    RepTableExtends(DocOf(tables, pool), FileDoc(v), n);
    NumberErases(t, 0);
    NumberRoot(t, 0);
    forall p, q | TableAt(n, p).Some? && TableAt(n, p) == TableAt(n, q)
      ensures p == q
    {
      NumberUnique(t, 0, p, q);
    }
  }
}
