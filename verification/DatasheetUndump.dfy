/**
 `ctd.undump`. The index numbers of sub-tables may be smaller than their parent's after a diff, so
 decoding is shown to end by the tree the document holds, passed along as a ghost.
 */
module DatasheetUndump {
  import opened Words
  import opened Datasheet

  // string.unpack("z", v, at)
  method ReadZ(v: bytes, at: nat, ghost s: bytes) returns (r: bytes)
    requires at <= |v| && PoolHas(v[at..], 0, s)
    ensures r == s
  {
    forall k | at <= k < at + |s|
      ensures v[k] == s[k - at] != 0
    {
      assert v[at..][0..|s|][k - at] == v[k];
    }
    assert v[at..][|s|] == v[at + |s|];
    var e := at;
    while v[e] != 0
      invariant at <= e <= at + |s|
      decreases at + |s| - e
    {
      e := e + 1;
    }
    r := v[at..e];
  }

  lemma {:induction false} PoolHasAt(v: bytes, base: nat, off: nat, s: bytes)
    requires base <= |v| && PoolHas(v[base..], off, s)
    ensures base + off <= |v| && PoolHas(v[base + off..], 0, s)
  {
    assert v[base..][off..off + |s|] == v[base + off..][0..|s|];
  }

  lemma {:induction false} SuffixReads(v: bytes, at: nat)
    requires at <= |v|
    ensures forall o: nat {:trigger Unpack(v[at..], o)} | at + o + 4 <= |v| :: Unpack(v[at..], o) == Unpack(v, at + o)
  {
  }

  method ReadKey(v: bytes, off: nat, ghost s: bytes) returns (r: bytes)
    requires FileShape(v) && PoolHas(FileDoc(v).pool, off, s)
    ensures r == s
  {
    PoolHasAt(v, Unpack(v, 0), off, s);
    r := ReadZ(v, Unpack(v, 0) + off, s);
  }

  method DecodeValue(v: bytes, tag: byte, off: nat, ghost x: Value) returns (r: Value)
    requires FileShape(v) && tag == TypeCode(x)
    requires off + 4 <= |v| && RepVal(FileDoc(v), Unpack(v, off), x)
    ensures r == x
    decreases x, 2
  {
    var w := Unpack(v, off);
    if tag == 1 {
      r := Int(ToSigned(w));
    } else if tag == 2 {
      r := Real(w);
    } else if tag == 3 {
      r := Bool(w != 0);
    } else if tag == 4 {
      r := Decode(v, w, x);
    } else {
      var s := ReadKey(v, w, x.s);
      r := Str(s);
    }
  }

  // The offset of body word `k` of a table of `n` items.
  function BodyAt(toffset: nat, n: nat, k: nat): nat { toffset + (Align4(8 + n) + 4 * k) }

  lemma {:induction false} TableHere(v: bytes, t: Value)
    requires FileShape(v) && RepTable(FileDoc(v), t)
    ensures t.Table? && t.id < TableCount(v) && |t.keys| <= |t.items|
    ensures TableStart(v, t.id) + 8 <= |v|
    ensures Unpack(v, TableStart(v, t.id)) == |t.items| - |t.keys|
    ensures Unpack(v, TableStart(v, t.id) + 4) == |t.keys|
  {
    hide *;
    RepSize(FileDoc(v), t);
    FileTable(v, t.id);
    SuffixReads(v, TableStart(v, t.id));
  }

  lemma {:induction false} ItemHere(v: bytes, t: Value, i: nat)
    requires FileShape(v) && t.Table? && RepTable(FileDoc(v), t) && i < |t.items|
    ensures t.id < TableCount(v) && |t.keys| <= |t.items|
    ensures var o := BodyAt(TableStart(v, t.id), |t.items|, SlotOf(|t.items| - |t.keys|, i));
      && TableStart(v, t.id) + 8 + i < |v|
      && v[TableStart(v, t.id) + 8 + i] == TypeCode(t.items[i])
      && o + 4 <= |v|
      && RepVal(FileDoc(v), Unpack(v, o), t.items[i])
  {
    hide *;
    RepItem(FileDoc(v), t, i);
    FileTable(v, t.id);
    BodyIs(TableStart(v, t.id), |t.items|, SlotOf(|t.items| - |t.keys|, i));
    assert FileDoc(v).tables[t.id][8 + i] == v[TableStart(v, t.id) + (8 + i)];
    SuffixReads(v, TableStart(v, t.id));
  }

  lemma {:induction false} BodyIs(toffset: nat, n: nat, k: nat)
    ensures BodyAt(toffset, n, k) == toffset + (Align4(8 + n) + 4 * k)
  {
  }

  lemma {:induction false} KeyHere(v: bytes, t: Value, j: nat)
    requires FileShape(v) && t.Table? && RepTable(FileDoc(v), t) && j < |t.keys|
    ensures t.id < TableCount(v) && |t.keys| <= |t.items|
    ensures var o := BodyAt(TableStart(v, t.id), |t.items|, KeySlot(|t.items| - |t.keys|, j));
      && o + 8 <= |v|
      && PoolHas(FileDoc(v).pool, Unpack(v, o), t.keys[j])
  {
    hide *;
    RepKey(FileDoc(v), t, j);
    FileTable(v, t.id);
    BodyIs(TableStart(v, t.id), |t.items|, KeySlot(|t.items| - |t.keys|, j));
    SuffixReads(v, TableStart(v, t.id));
  }

  // The words of one item follow those of the item before it.
  lemma {:induction false} BodyStep(toffset: nat, n: nat, arrayN: nat, i: nat)
    requires arrayN <= n && i < n
    ensures i < arrayN ==> BodyAt(toffset, n, SlotOf(arrayN, i)) + 4 == BodyAt(toffset, n, SlotOf(arrayN, i) + 1)
    ensures i < arrayN ==> SlotOf(arrayN, i) == i
    ensures i >= arrayN ==>
      && BodyAt(toffset, n, KeySlot(arrayN, i - arrayN)) + 4 == BodyAt(toffset, n, SlotOf(arrayN, i))
      && BodyAt(toffset, n, SlotOf(arrayN, i)) + 4 == BodyAt(toffset, n, KeySlot(arrayN, i + 1 - arrayN))
  {
  }

  lemma {:induction false} FirstKey(arrayN: nat)
    ensures KeySlot(arrayN, 0) == arrayN
  {
  }

  lemma {:induction false} TakeNext<T>(s: seq<T>, i: nat)
    requires i < |s|
    ensures s[..i] + [s[i]] == s[..i + 1]
  {
  }

  method DecodeArray(v: bytes, toffset: nat, arrayN: nat, ghost t: Value) returns (items: seq<Value>, offset: nat)
    requires FileShape(v) && t.Table? && RepTable(FileDoc(v), t) && |t.keys| <= |t.items|
      && arrayN == |t.items| - |t.keys|
    requires t.id < TableCount(v) && toffset == TableStart(v, t.id)
    ensures items == t.items[..arrayN]
    ensures offset == BodyAt(toffset, |t.items|, KeySlot(arrayN, 0))
    decreases t, 0
  {
    hide *;
    TableHere(v, t);
    var n := arrayN + Unpack(v, toffset + 4) as nat;
    items, offset := [], BodyAt(toffset, n, 0);
    for i := 0 to arrayN
      invariant offset == BodyAt(toffset, n, i)
      invariant items == t.items[..i]
    {
      ItemHere(v, t, i);
      BodyStep(toffset, n, arrayN, i);
      TakeNext(t.items, i);
      var x := DecodeValue(v, v[toffset + 8 + i], offset, t.items[i]);
      items, offset := items + [x], offset + 4;
    }
    FirstKey(arrayN);
  }

  method DecodeDict(v: bytes, toffset: nat, arrayN: nat, offset_: nat, ghost t: Value)
      returns (keys: seq<bytes>, fields: seq<Value>)
    requires FileShape(v) && t.Table? && RepTable(FileDoc(v), t) && |t.keys| <= |t.items|
      && arrayN == |t.items| - |t.keys|
    requires t.id < TableCount(v) && toffset == TableStart(v, t.id)
    requires offset_ == BodyAt(toffset, |t.items|, KeySlot(arrayN, 0))
    ensures keys == t.keys && fields == t.items[arrayN..]
    decreases t, 0
  {
    hide *;
    TableHere(v, t);
    var n, offset := arrayN + Unpack(v, toffset + 4) as nat, offset_;
    ghost var rest := t.items[arrayN..];
    keys, fields := [], [];
    for j := 0 to n - arrayN
      invariant offset == BodyAt(toffset, n, KeySlot(arrayN, j))
      invariant fields == rest[..j] && keys == t.keys[..j]
    {
      KeyHere(v, t, j);
      ItemHere(v, t, arrayN + j);
      BodyStep(toffset, n, arrayN, arrayN + j);
      TakeNext(rest, j);
      TakeNext(t.keys, j);
      var key := ReadKey(v, Unpack(v, offset), t.keys[j]);
      offset := offset + 4;
      var x := DecodeValue(v, v[toffset + 8 + arrayN + j], offset, t.items[arrayN + j]);
      fields, keys, offset := fields + [x], keys + [key], offset + 4;
    }
  }

  method Decode(v: bytes, n: nat, ghost t: Value) returns (r: Value)
    requires FileShape(v) && t.Table? && RepTable(FileDoc(v), t) && t.id == n
    ensures r == t
    decreases t, 1
  {
    hide *;
    TableHere(v, t);
    var toffset := TableStart(v, n);
    var items, offset := DecodeArray(v, toffset, Unpack(v, toffset), t);
    var keys, fields := DecodeDict(v, toffset, Unpack(v, toffset), offset, t);
    r := Table(n, items + fields, keys);
  }

  // A document is read back as the tree it holds, with the index number of every table.
  method Undump(v: bytes) returns (r: Value)
    requires IsDocument(v)
    ensures Represents(v, r)
  {
    ghost var t :| Represents(v, t);
    r := Decode(v, 0, t);
  }
}
