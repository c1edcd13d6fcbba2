/**
 `ctd.diff`: the tables of a new version are renumbered so that a table found at the same path in
 the last version keeps its number; new tables get numbers the last version did not have.
 */
module DatasheetDiff {
  import opened Words
  import opened Datasheet
  import opened DatasheetFile
  import opened DatasheetDump
  import opened DatasheetUndump

  const UNUSED: word := 0xffff_ffff

  // ----- diffmap -----

  // Each entry comes from a path that is a table in both trees.
  ghost predicate Sound(m: map<nat, nat>, last: Value, cur: Value) {
    forall x | x in m :: exists p :: TableAt(cur, p) == Some(x) && TableAt(last, p) == Some(m[x])
  }

  // Every path that is a table in both trees has its entry.
  ghost predicate Complete(m: map<nat, nat>, last: Value, cur: Value) {
    forall p | TableAt(last, p).Some? && TableAt(cur, p).Some? :: TableAt(cur, p).value in m
  }

  // The sub-tables under the first `i` items of `l` are done.
  ghost predicate CompleteTo(m: map<nat, nat>, l: Value, c: Value, i: nat)
    requires l.Table? && |l.keys| <= |l.items| && i <= |l.items|
  {
    forall j | 0 <= j < i && Lookup(c, KeyOf(l, j)).Some? :: Complete(m, l.items[j], Lookup(c, KeyOf(l, j)).value)
  }

  lemma {:induction false} SoundAdd(m: map<nat, nat>, last: Value, cur: Value, p: Path, x: nat, y: nat)
    requires Sound(m, last, cur)
    requires TableAt(cur, p) == Some(x) && TableAt(last, p) == Some(y)
    ensures Sound(m[x := y], last, cur)
  {
  }

  lemma {:induction false} CompleteNone(m: map<nat, nat>, l: Value, c: Value)
    requires l.Table? && |l.keys| <= |l.items|
    ensures CompleteTo(m, l, c, 0)
  {
  }

  lemma {:induction false} CompleteStep(m: map<nat, nat>, m': map<nat, nat>, l: Value, c: Value, i: nat)
    requires l.Table? && |l.keys| <= |l.items| && i < |l.items|
    requires CompleteTo(m, l, c, i) && m.Keys <= m'.Keys
    requires Lookup(c, KeyOf(l, i)).Some? ==> Complete(m', l.items[i], Lookup(c, KeyOf(l, i)).value)
    ensures CompleteTo(m', l, c, i + 1)
  {
    forall j | 0 <= j < i && Lookup(c, KeyOf(l, j)).Some?
      ensures Complete(m', l.items[j], Lookup(c, KeyOf(l, j)).value)
    {
      assert Complete(m, l.items[j], Lookup(c, KeyOf(l, j)).value);
    }
  }

  lemma {:induction false} CompleteScalar(m: map<nat, nat>, l: Value, c: Value)
    requires !l.Table? || !c.Table?
    ensures Complete(m, l, c)
  {
    forall p
      ensures TableAt(l, p).None? || TableAt(c, p).None?
    {
      RootAt(l, p);
      RootAt(c, p);
    }
  }

  lemma {:induction false} CompleteTable(m: map<nat, nat>, l: Value, c: Value)
    requires l.Table? && |l.keys| <= |l.items| && c.Table? && c.id in m
    requires CompleteTo(m, l, c, |l.items|)
    ensures Complete(m, l, c)
  {
    forall p | TableAt(l, p).Some? && TableAt(c, p).Some?
      ensures TableAt(c, p).value in m
    {
      RootAt(l, p);
      RootAt(c, p);
      if p != [] {
        var i := LookupKey(l, p[0]);
        assert Complete(m, l.items[i], Lookup(c, KeyOf(l, i)).value);
      }
    }
  }

  lemma {:induction false} SubTable(t: Value, p: Path, s: Value, k: Key, v: Value)
    requires Sub(t, p) == Some(s) && Lookup(s, k) == Some(v)
    ensures Sub(t, p + [k]) == Some(v)
    ensures v.Table? ==> TableAt(t, p + [k]) == Some(v.id)
  {
    SubExtend(t, p, k);
  }

  lemma {:induction false} SubRoot(t: Value, p: Path, s: Value)
    requires Sub(t, p) == Some(s) && s.Table?
    ensures TableAt(t, p) == Some(s.id)
  {
  }

  lemma {:induction false} PlainTable(t: Value)
    requires Plain(t) && t.Table?
    ensures |t.keys| <= |t.items| && Distinct(t.keys)
  {
  }

  lemma {:induction false} PlainItem(t: Value, i: nat)
    requires Plain(t) && t.Table? && i < |t.items|
    ensures Plain(t.items[i])
  {
  }

  // `p` is the path of `l` in the last tree and of `c` in the current one.
  method Comp(l: Value, c: Value, m0: map<nat, nat>, ghost p: Path, ghost last: Value, ghost cur: Value)
      returns (m: map<nat, nat>)
    requires l.Table? && c.Table? && Plain(l)
    requires Sub(last, p) == Some(l) && Sub(cur, p) == Some(c)
    requires Sound(m0, last, cur)
    ensures Sound(m, last, cur) && Complete(m, l, c)
    ensures m0.Keys <= m.Keys
    decreases l
  {
    hide *;
    PlainTable(l);
    SubRoot(last, p, l);
    SubRoot(cur, p, c);
    SoundAdd(m0, last, cur, p, c.id, l.id);
    m := m0[c.id := l.id];
    CompleteNone(m, l, c);
    for i := 0 to |l.items|
      invariant Sound(m, last, cur) && m0.Keys <= m.Keys && c.id in m
      invariant CompleteTo(m, l, c, i)
    {
      ghost var before := m;
      var k := KeyOf(l, i);
      var newv := Lookup(c, k);
      LookupKeyOf(l, i);
      if newv.Some? {
        if l.items[i].Table? && newv.value.Table? {
          PlainItem(l, i);
          SubTable(last, p, l, k, l.items[i]);
          SubTable(cur, p, c, k, newv.value);
          m := Comp(l.items[i], newv.value, m, p + [k], last, cur);
        } else {
          CompleteScalar(m, l.items[i], newv.value);
        }
      }
      CompleteStep(before, m, l, c, i);
    }
    CompleteTable(m, l, c);
  }

  // Which number each table of the new version had, for the paths both versions share.
  method DiffMap(last: bytes, current: bytes, ghost tl: Value, ghost tc: Value) returns (m: map<nat, nat>)
    requires Represents(last, tl) && Represents(current, tc)
    ensures Sound(m, tl, tc) && Complete(m, tl, tc)
  {
    var lastv := Undump(last);
    var curv := Undump(current);
    RepresentsUnique(last, lastv, tl);
    RepresentsUnique(current, curv, tc);
    m := Comp(lastv, curv, map[], [], tl, tc);
  }

  // ----- New numbers -----

  ghost predicate Injective(m: map<nat, nat>) {
    forall x, y | x in m && y in m && m[x] == m[y] :: x == y
  }

  lemma {:induction false} SoundInjective(m: map<nat, nat>, last: Value, cur: Value)
    requires Sound(m, last, cur) && UniqueIds(last)
    ensures Injective(m)
  {
    forall x, y | x in m && y in m && m[x] == m[y]
      ensures x == y
    {
      var p :| TableAt(cur, p) == Some(x) && TableAt(last, p) == Some(m[x]);
      var q :| TableAt(cur, q) == Some(y) && TableAt(last, q) == Some(m[y]);
    }
  }

  // `m` numbers the tables 0..n: those of `m0` as `m0` does, the others from `lastn` to `newn`.
  ghost predicate Numbering(m0: map<nat, nat>, m: map<nat, nat>, n: nat, lastn: nat, newn: nat) {
    && (forall x: nat :: x in m <==> x < n)
    && Injective(m)
    && lastn <= newn
    && (forall x | x in m :: m[x] < newn)
    && (forall x | x in m0 :: x in m && m[x] == m0[x])
    && (forall x | x in m && x !in m0 :: m[x] >= lastn)
    && (forall y | lastn <= y < newn :: y in m.Values)
    && (forall x, y | x in m && y in m && x !in m0 && y !in m0 && x < y :: m[x] < m[y])
  }

  lemma {:induction false} ValuesAdd(m: map<nat, nat>, x: nat, y: nat)
    requires x !in m
    ensures m[x := y].Values == m.Values + {y}
  {
    var m' := m[x := y];
    assert m'[x] == y;
    forall v | v in m.Values
      ensures v in m'.Values
    {
      var k :| k in m && m[k] == v;
      assert m'[k] == v;
    }
  }

  // The tables below `n` that `m` does not know.
  ghost function Missing(m: map<nat, nat>, n: nat): set<nat> {
    set k: nat | k < n && k !in m
  }

  lemma {:induction false} MissingNext(m: map<nat, nat>, n: nat)
    ensures |Missing(m, 0)| == 0 && |Missing(m, n + 1)| == |Missing(m, n)| + if n in m then 0 else 1
  {
    assert Missing(m, 0) == {};
    assert Missing(m, n + 1) == Missing(m, n) + if n in m then {} else {n};
  }

  // The tables below `i` have their numbers.
  ghost predicate Extending(m0: map<nat, nat>, m: map<nat, nat>, i: nat, lastn: nat, newn: nat) {
    && (forall x: nat :: x in m <==> x in m0 || x < i)
    && Injective(m) && lastn <= newn <= lastn + i
    && (forall x | x in m :: m[x] < newn)
    && (forall x | x in m0 :: m[x] == m0[x])
    && (forall x | x in m && x !in m0 :: m[x] >= lastn)
    && (forall y | lastn <= y < newn :: y in m.Values)
    && (forall x, y | x in m && y in m && x !in m0 && y !in m0 && x < y :: m[x] < m[y])
    && newn == lastn + |Missing(m0, i)|
  }

  lemma {:induction false} ExtendingNext(m0: map<nat, nat>, m: map<nat, nat>, i: nat, lastn: nat, newn: nat)
    requires Extending(m0, m, i, lastn, newn)
    ensures if i in m then Extending(m0, m, i + 1, lastn, newn) else Extending(m0, m[i := newn], i + 1, lastn, newn + 1)
  {
    MissingNext(m0, i);
    hide Missing;
    if i !in m {
      ValuesAdd(m, i, newn);
    }
  }

  lemma {:induction false} ExtendingEnds(m0: map<nat, nat>, n: nat, lastn: nat)
    requires Injective(m0) && forall x | x in m0 :: x < n && m0[x] < lastn
    ensures Extending(m0, m0, 0, lastn, lastn)
    ensures forall m, newn :: Extending(m0, m, n, lastn, newn) ==> Numbering(m0, m, n, lastn, newn)
  {
    MissingNext(m0, 0);
    hide Missing;
  }

  method Extend(m0: map<nat, nat>, n: nat, lastn: nat) returns (m: map<nat, nat>, newn: nat)
    requires Injective(m0) && forall x | x in m0 :: x < n && m0[x] < lastn
    ensures Numbering(m0, m, n, lastn, newn) && newn == lastn + |Missing(m0, n)|
  {
    ExtendingEnds(m0, n, lastn);
    m, newn := m0, lastn;
    for i := 0 to n
      invariant Extending(m0, m, i, lastn, newn)
    {
      ExtendingNext(m0, m, i, lastn, newn);
      if i !in m {
        m := m[i := newn];
        newn := newn + 1;
      }
    }
  }

  // The new index table: entry m[i] is the old entry i, the rest is unused.
  method Reindex(m: map<nat, nat>, old_: seq<word>, newn: nat) returns (index: seq<word>)
    requires forall x: nat :: x in m <==> x < |old_|
    requires Injective(m) && forall x | x in m :: m[x] < newn
    ensures |index| == newn
    ensures forall i | 0 <= i < |old_| :: index[m[i]] == old_[i]
    ensures forall k | 0 <= k < newn && (forall i | 0 <= i < |old_| :: m[i] != k) :: index[k] == UNUSED
  {
    index := seq(newn, _ => UNUSED);
    for i := 0 to |old_|
      invariant |index| == newn
      invariant forall j | 0 <= j < i :: index[m[j]] == old_[j]
      invariant forall k | 0 <= k < newn && (forall j | 0 <= j < i :: m[j] != k) :: index[k] == UNUSED
    {
      index := index[m[i] := old_[i]];
    }
  }

  // ----- Trees under a renumbering -----

  function Renum(t: Value, m: map<nat, nat>): (r: Value)
    ensures r.Table? <==> t.Table?
    decreases t, 0
  {
    if t.Table? then Table(if t.id in m then m[t.id] else t.id, RenumUpTo(t.items, |t.items|, m), t.keys) else t
  }

  function RenumUpTo(items: seq<Value>, i: nat, m: map<nat, nat>): (r: seq<Value>)
    requires i <= |items|
    ensures |r| == i
    ensures forall k {:trigger r[k]} | 0 <= k < i :: r[k] == Renum(items[k], m)
    decreases items, i
  {
    if i == 0 then [] else RenumUpTo(items, i - 1, m) + [Renum(items[i - 1], m)]
  }

  lemma {:induction false} RenumItems(t: Value, m: map<nat, nat>)
    requires t.Table?
    ensures Renum(t, m).Table? && Renum(t, m).keys == t.keys && |Renum(t, m).items| == |t.items|
    ensures t.id in m ==> Renum(t, m).id == m[t.id]
    ensures forall i {:trigger Renum(t, m).items[i]} | 0 <= i < |t.items| ::
      Renum(t, m).items[i] == Renum(t.items[i], m) && TypeCode(Renum(t, m).items[i]) == TypeCode(t.items[i])
  {
  }

  lemma {:induction false} RenumErases(t: Value, m: map<nat, nat>)
    ensures Erase(Renum(t, m)) == Erase(t)
    ensures Plain(t) ==> Plain(Renum(t, m))
    decreases t
  {
    if t.Table? {
      RenumItems(t, m);
      forall i | 0 <= i < |t.items|
        ensures Erase(Renum(t, m).items[i]) == Erase(t.items[i])
        ensures Plain(t.items[i]) ==> Plain(Renum(t, m).items[i])
      {
        RenumErases(t.items[i], m);
      }
      assert Erase(Renum(t, m)).items == Erase(t).items;
    }
  }

  lemma {:induction false} RenumLookup(t: Value, m: map<nat, nat>, k: Key)
    ensures Lookup(t, k).Some? <==> Lookup(Renum(t, m), k).Some?
    ensures Lookup(t, k).Some? ==> Lookup(Renum(t, m), k).value == Renum(Lookup(t, k).value, m)
  {
    if t.Table? {
      RenumItems(t, m);
    }
  }

  // A renumbering leaves the tables where they are.
  lemma {:induction false} RenumTableAt(t: Value, m: map<nat, nat>, p: Path)
    requires TableAt(t, p).Some? ==> TableAt(t, p).value in m
    ensures TableAt(t, p).None? <==> TableAt(Renum(t, m), p).None?
    ensures TableAt(t, p).Some? ==> TableAt(Renum(t, m), p) == Some(m[TableAt(t, p).value])
    decreases |p|
  {
    if p == [] {
      if t.Table? {
        RenumItems(t, m);
      }
    } else {
      RenumLookup(t, m, p[0]);
      if Lookup(t, p[0]).Some? {
        RenumTableAt(Lookup(t, p[0]).value, m, p[1..]);
      }
    }
  }

  // ----- Encoded tables under a renumbering -----

  // `r` is table `b` with the number of every sub-table changed by `m`, perhaps with more bytes after it.
  ghost predicate Remapped(b: bytes, r: bytes, m: map<nat, nat>) {
    && Exact(b) && |b| <= |r|
    && var arrayN, dictN := Unpack(b, 0) as nat, Unpack(b, 4) as nat;
    && var n, body := arrayN + dictN, Align4(8 + arrayN + dictN);
    && (forall o {:trigger r[o]} | 0 <= o < 8 + n :: r[o] == b[o])
    && (forall i {:trigger SlotOf(arrayN, i)} | 0 <= i < n ::
          var w, w' := Unpack(b, body + 4 * SlotOf(arrayN, i)), Unpack(r, body + 4 * SlotOf(arrayN, i));
          if b[8 + i] == 4 then w as nat in m && w' as nat == m[w as nat] else w' == w)
    && (forall j {:trigger KeySlot(arrayN, j)} | 0 <= j < dictN ::
          Unpack(r, body + 4 * KeySlot(arrayN, j)) == Unpack(b, body + 4 * KeySlot(arrayN, j)))
  }

  // The numbers a table gives its sub-tables are all renumbered, to 32-bit numbers.
  ghost predicate Mapped(b: bytes, m: map<nat, nat>) {
    && Exact(b)
    && var arrayN, n := Unpack(b, 0) as nat, Unpack(b, 0) as nat + Unpack(b, 4) as nat;
    && forall i {:trigger b[8 + i]} {:trigger SlotOf(arrayN, i)} | 0 <= i < n && b[8 + i] == 4 ::
         var w := Unpack(b, Align4(8 + n) + 4 * SlotOf(arrayN, i)) as nat;
         w in m && m[w] < WORD
  }

  // The types of the items and the words after them.
  ghost predicate Parts(b: bytes, types: bytes, words: seq<word>) {
    && Exact(b)
    && |types| == Unpack(b, 0) as nat + Unpack(b, 4) as nat
    && |words| == Unpack(b, 0) as nat + 2 * Unpack(b, 4) as nat
    && (forall i {:trigger types[i]} | 0 <= i < |types| :: types[i] == b[8 + i])
    && (forall k {:trigger words[k]} | 0 <= k < |words| :: words[k] == Unpack(b, Align4(8 + |types|) + 4 * k))
  }

  lemma {:induction false} PartsOf(b: bytes)
    requires Exact(b)
    ensures var arrayN, dictN := Unpack(b, 0) as nat, Unpack(b, 4) as nat;
      && Align4(8 + (arrayN + dictN)) + 4 * (arrayN + 2 * dictN) == |b|
      && 8 + (arrayN + dictN) <= |b|
      && Parts(b, b[8..8 + (arrayN + dictN)], UnpackAll(b, Align4(8 + (arrayN + dictN)), arrayN + 2 * dictN))
  {
  }

  ghost predicate Mappable(types: bytes, words: seq<word>, arrayN: nat, m: map<nat, nat>)
    requires arrayN <= |types| && |words| == 2 * |types| - arrayN
  {
    forall x {:trigger SlotOf(arrayN, x)} | 0 <= x < |types| && types[x] == 4 ::
      words[SlotOf(arrayN, x)] as nat in m && m[words[SlotOf(arrayN, x)] as nat] < WORD
  }

  // The table numbers of the first `i` items have been changed, and nothing else.
  ghost predicate MappedTo(words: seq<word>, values: seq<word>, types: bytes, arrayN: nat, m: map<nat, nat>, i: nat)
    requires arrayN <= |types| && |words| == 2 * |types| - arrayN && Mappable(types, words, arrayN, m)
  {
    && |values| == |words|
    && (forall x {:trigger SlotOf(arrayN, x)} | 0 <= x < |types| ::
          values[SlotOf(arrayN, x)] ==
            if x < i && types[x] == 4 then m[words[SlotOf(arrayN, x)] as nat] else words[SlotOf(arrayN, x)])
    && (forall j {:trigger KeySlot(arrayN, j)} | 0 <= j < |types| - arrayN ::
         values[KeySlot(arrayN, j)] == words[KeySlot(arrayN, j)])
  }

  lemma {:induction false} MappedNone(words: seq<word>, types: bytes, arrayN: nat, m: map<nat, nat>)
    requires arrayN <= |types| && |words| == 2 * |types| - arrayN && Mappable(types, words, arrayN, m)
    ensures MappedTo(words, words, types, arrayN, m, 0)
    ensures 4 !in types ==> MappedTo(words, words, types, arrayN, m, |types|)
  {
  }

  lemma {:induction false} MappedStep(words: seq<word>, values: seq<word>, types: bytes, arrayN: nat,
      m: map<nat, nat>, i: nat)
    requires arrayN <= |types| && |words| == 2 * |types| - arrayN && Mappable(types, words, arrayN, m)
    requires i < |types| && MappedTo(words, values, types, arrayN, m, i)
    ensures |values| == |words| && SlotOf(arrayN, i) < |words|
    ensures types[i] != 4 ==> MappedTo(words, values, types, arrayN, m, i + 1)
    ensures types[i] == 4 ==>
      && var w := values[SlotOf(arrayN, i)] as nat;
      && w in m && m[w] < WORD
      && MappedTo(words, values[SlotOf(arrayN, i) := m[w]], types, arrayN, m, i + 1)
  {
    assert SlotOf(arrayN, i) < |words|;
    if types[i] == 4 {
      var w := values[SlotOf(arrayN, i)] as nat;
      assert w == words[SlotOf(arrayN, i)] as nat;
      var values' := values[SlotOf(arrayN, i) := m[w]];
      forall x | 0 <= x < |types|
        ensures values'[SlotOf(arrayN, x)] ==
          if x < i + 1 && types[x] == 4 then m[words[SlotOf(arrayN, x)] as nat] else words[SlotOf(arrayN, x)]
      {
        assert x != i ==> SlotOf(arrayN, x) != SlotOf(arrayN, i);
      }
      forall j | 0 <= j < |types| - arrayN
        ensures values'[KeySlot(arrayN, j)] == words[KeySlot(arrayN, j)]
      {
        assert KeySlot(arrayN, j) != SlotOf(arrayN, i);
      }
    }
  }

  lemma {:induction false} MappedParts(b: bytes, types: bytes, words: seq<word>, m: map<nat, nat>)
    requires Mapped(b, m) && Parts(b, types, words)
    ensures Unpack(b, 0) as nat <= |types| && |words| == 2 * |types| - Unpack(b, 0) as nat
    ensures Mappable(types, words, Unpack(b, 0) as nat, m)
  {
    var arrayN := Unpack(b, 0) as nat;
    forall x | 0 <= x < |types| && types[x] == 4
      ensures words[SlotOf(arrayN, x)] as nat in m && m[words[SlotOf(arrayN, x)] as nat] < WORD
    {
      assert b[8 + x] == 4;
    }
  }

  lemma {:induction false} PatchedReads(b: bytes, hlen: nat, values: seq<word>)
    requires hlen <= |b| == hlen + 4 * |values|
    ensures var r := b[..hlen] + PackAll(values);
      && |r| == |b|
      && (forall o {:trigger r[o]} | 0 <= o < hlen :: r[o] == b[o])
      && (forall k {:trigger values[k]} | 0 <= k < |values| :: Unpack(r, hlen + 4 * k) == values[k])
  {
    var r := b[..hlen] + PackAll(values);
    forall k | 0 <= k < |values|
      ensures Unpack(r, hlen + 4 * k) == values[k]
    {
      BodyReads(b[..hlen], values, k);
    }
  }

  lemma {:induction false} MappedBlob(b: bytes, r: bytes, types: bytes, words: seq<word>, values: seq<word>,
      m: map<nat, nat>)
    requires Parts(b, types, words) && |r| == |b| == Align4(8 + |types|) + 4 * |words|
    requires Unpack(b, 0) as nat <= |types| && |words| == 2 * |types| - Unpack(b, 0) as nat
    requires Mappable(types, words, Unpack(b, 0) as nat, m)
    requires MappedTo(words, values, types, Unpack(b, 0) as nat, m, |types|)
    requires forall o {:trigger r[o]} | 0 <= o < Align4(8 + |types|) :: r[o] == b[o]
    requires forall k {:trigger values[k]} | 0 <= k < |values| :: Unpack(r, Align4(8 + |types|) + 4 * k) == values[k]
    ensures Remapped(b, r, m)
  {
    hide Unpack;
    var arrayN, hlen := Unpack(b, 0) as nat, Align4(8 + |types|);
    forall i | 0 <= i < |types|
      ensures var w, w' := Unpack(b, hlen + 4 * SlotOf(arrayN, i)), Unpack(r, hlen + 4 * SlotOf(arrayN, i));
          if b[8 + i] == 4 then w as nat in m && w' as nat == m[w as nat] else w' == w
    {
      assert words[SlotOf(arrayN, i)] == Unpack(b, hlen + 4 * SlotOf(arrayN, i));
      assert values[SlotOf(arrayN, i)] == Unpack(r, hlen + 4 * SlotOf(arrayN, i));
      assert types[i] == b[8 + i];
    }
    forall j | 0 <= j < |types| - arrayN
      ensures Unpack(r, hlen + 4 * KeySlot(arrayN, j)) == Unpack(b, hlen + 4 * KeySlot(arrayN, j))
    {
      assert words[KeySlot(arrayN, j)] == Unpack(b, hlen + 4 * KeySlot(arrayN, j));
      assert values[KeySlot(arrayN, j)] == Unpack(r, hlen + 4 * KeySlot(arrayN, j));
    }
  }

  // `remap`, on the bytes of one table of the current version.
  method RemapBlob(b: bytes, m: map<nat, nat>) returns (r: bytes)
    requires Mapped(b, m)
    ensures Remapped(b, r, m) && |r| == |b|
  {
    hide *;
    MappedExact(b, m);
    PartsOf(b);
    var arrayN: nat, dictN: nat := Unpack(b, 0), Unpack(b, 4);
    var hlen := Align4(8 + (arrayN + dictN));
    var types, words := b[8..8 + (arrayN + dictN)], UnpackAll(b, hlen, arrayN + 2 * dictN);
    MappedParts(b, types, words, m);
    MappedNone(words, types, arrayN, m);
    Limits();
    var values: seq<word> := words;
    if 4 in types {
      for i := 0 to arrayN
        invariant MappedTo(words, values, types, arrayN, m, i)
      {
        MappedStep(words, values, types, arrayN, m, i);
        if types[i] == 4 {
          values := values[SlotOf(arrayN, i) := m[values[SlotOf(arrayN, i)] as nat]];
        }
      }
      for i := arrayN to arrayN + dictN
        invariant MappedTo(words, values, types, arrayN, m, i)
      {
        MappedStep(words, values, types, arrayN, m, i);
        if types[i] == 4 {
          values := values[SlotOf(arrayN, i) := m[values[SlotOf(arrayN, i)] as nat]];
        }
      }
    }
    MappedSize(words, values, types, arrayN, m, |types|);
    r := b[..hlen] + PackAll(values);
    PatchedReads(b, hlen, values);
    MappedBlob(b, r, types, words, values, m);
  }

  lemma {:induction false} MappedExact(b: bytes, m: map<nat, nat>)
    requires Mapped(b, m)
    ensures Exact(b) && 8 <= |b|
  {
  }

  lemma {:induction false} MappedSize(words: seq<word>, values: seq<word>, types: bytes, arrayN: nat,
      m: map<nat, nat>, i: nat)
    requires arrayN <= |types| && |words| == 2 * |types| - arrayN && Mappable(types, words, arrayN, m)
    requires MappedTo(words, values, types, arrayN, m, i)
    ensures |values| == |words|
  {
  }

  lemma {:induction false} RemappedReads(b: bytes, r: bytes, m: map<nat, nat>, n: nat, arrayN: nat)
    requires Remapped(b, r, m)
    requires arrayN == Unpack(b, 0) as nat && n == arrayN + Unpack(b, 4) as nat
    ensures BlobSize(arrayN, n - arrayN) == |b| <= |r|
    ensures Unpack(r, 0) == Unpack(b, 0) && Unpack(r, 4) == Unpack(b, 4)
    ensures forall i {:trigger r[8 + i]} | 0 <= i < n :: r[8 + i] == b[8 + i]
    ensures forall i {:trigger SlotOf(arrayN, i)} | 0 <= i < n ::
      var w, w' := Unpack(b, Align4(8 + n) + 4 * SlotOf(arrayN, i)), Unpack(r, Align4(8 + n) + 4 * SlotOf(arrayN, i));
      if b[8 + i] == 4 then w as nat in m && w' as nat == m[w as nat] else w' == w
    ensures forall j {:trigger KeySlot(arrayN, j)} | 0 <= j < n - arrayN ::
      Unpack(r, Align4(8 + n) + 4 * KeySlot(arrayN, j)) == Unpack(b, Align4(8 + n) + 4 * KeySlot(arrayN, j))
  {
  }

  ghost predicate DocRemapped(d: Doc, e: Doc, m: map<nat, nat>) {
    && e.pool == d.pool
    && forall k | k in d.tables :: k in m && m[k] in e.tables && Remapped(d.tables[k], e.tables[m[k]], m)
  }

  lemma {:induction false} RemapVal(d: Doc, e: Doc, m: map<nat, nat>, v: Value, w: word, w': word)
    requires DocRemapped(d, e, m) && RepVal(d, w, v)
    requires if TypeCode(v) == 4 then w as nat in m && w' as nat == m[w as nat] else w' == w
    ensures RepVal(e, w', Renum(v, m))
    decreases v, 1
  {
    hide RepTable;
    hide Remapped;
    if v.Table? {
      RemapRep(d, e, m, v);
      RenumItems(v, m);
    }
  }

  lemma {:induction false} DocRemappedAt(d: Doc, e: Doc, m: map<nat, nat>, k: nat)
    requires DocRemapped(d, e, m) && k in d.tables
    ensures k in m && m[k] in e.tables && Remapped(d.tables[k], e.tables[m[k]], m) && e.pool == d.pool
  {
  }

  lemma {:induction false} PlainTypeCode(v: Value)
    ensures TypeCode(v) == 4 <==> v.Table?
  {
  }

  lemma {:induction false} SlotBounds(arrayN: nat, n: nat, size: nat)
    requires arrayN <= n && BlobSize(arrayN, n - arrayN) <= size
    ensures 8 + n <= size
    ensures forall i {:trigger SlotOf(arrayN, i)} | 0 <= i < n :: Align4(8 + n) + 4 * SlotOf(arrayN, i) + 4 <= size
    ensures forall j {:trigger KeySlot(arrayN, j)} | 0 <= j < n - arrayN ::
      Align4(8 + n) + 4 * KeySlot(arrayN, j) + 4 <= size
  {
  }

  // The renumbered tables encode the renumbered tree.
  lemma {:induction false} RemapRep(d: Doc, e: Doc, m: map<nat, nat>, t: Value)
    requires DocRemapped(d, e, m) && RepTable(d, t)
    ensures RepTable(e, Renum(t, m))
    decreases t, 0
  {
    hide *;
    RepSize(d, t);
    RenumItems(t, m);
    DocRemappedAt(d, e, m, t.id);
    var b, r, n, arrayN := d.tables[t.id], e.tables[m[t.id]], |t.items|, |t.items| - |t.keys|;
    RemappedReads(b, r, m, n, arrayN);
    SlotBounds(arrayN, n, |b|);
    forall i | 0 <= i < n
      ensures r[8 + i] == TypeCode(Renum(t, m).items[i])
      ensures RepVal(e, Unpack(r, Align4(8 + n) + 4 * SlotOf(arrayN, i)), Renum(t, m).items[i])
    {
      RepItem(d, t, i);
      assert r[8 + i] == b[8 + i];
      var w := Unpack(b, Align4(8 + n) + 4 * SlotOf(arrayN, i));
      RemapVal(d, e, m, t.items[i], w, Unpack(r, Align4(8 + n) + 4 * SlotOf(arrayN, i)));
    }
    forall j | 0 <= j < |t.keys|
      ensures PoolHas(e.pool, Unpack(r, Align4(8 + n) + 4 * KeySlot(arrayN, j)), t.keys[j])
    {
      RepKey(d, t, j);
    }
    RepIntro(e, Renum(t, m));
  }

  lemma {:induction false} RemappedExtends(b: bytes, r: bytes, r': bytes, m: map<nat, nat>)
    requires Remapped(b, r, m) && r <= r'
    ensures Remapped(b, r', m)
  {
    PrefixReads(r, r');
    hide Unpack;
    hide Shape;
    var arrayN, dictN := Unpack(b, 0) as nat, Unpack(b, 4) as nat;
    var n, body := arrayN + dictN, Align4(8 + arrayN + dictN);
    forall i | 0 <= i < n
      ensures Unpack(r', body + 4 * SlotOf(arrayN, i)) == Unpack(r, body + 4 * SlotOf(arrayN, i))
    {
    }
  }

  // ----- Tables of a dump -----

  lemma {:induction false} DumpMapped(t: Value, tables: seq<bytes>, pool: bytes, m: map<nat, nat>, k: nat)
    requires Plain(t) && t.Table? && k < |tables| == Tables(t) && Exact(tables[k])
    requires RepTable(DocOf(tables, pool), Number(t, 0))
    requires forall x: nat | x < |tables| :: x in m && m[x] < WORD
    ensures Mapped(tables[k], m)
  {
    hide *;
    var d, b := DocOf(tables, pool), tables[k];
    DocOfAt(tables, pool, k);
    var p := NumberCovers(t, 0, k);
    SubRep(d, Number(t, 0), p);
    SubAt(Number(t, 0), p);
    var s := Sub(Number(t, 0), p).value;
    RepSize(d, s);
    var n, arrayN := |s.items|, |s.items| - |s.keys|;
    SlotBounds(arrayN, n, |b|);
    forall i | 0 <= i < n
      ensures b[8 + i] == 4 ==>
        var w := Unpack(b, Align4(8 + n) + 4 * SlotOf(arrayN, i)) as nat; w in m && m[w] < WORD
    {
      RepItem(d, s, i);
      if b[8 + i] == 4 {
        PlainTypeCode(s.items[i]);
        var w := Unpack(b, Align4(8 + n) + 4 * SlotOf(arrayN, i));
        RepTableVal(d, w, s.items[i]);
        RepSize(d, s.items[i]);
        DocOfAt(tables, pool, w as nat);
      }
    }
    MappedIntro(b, m, arrayN, n);
  }

  lemma {:induction false} DocOfAt(tables: seq<bytes>, pool: bytes, k: nat)
    ensures k in DocOf(tables, pool).tables <==> k < |tables|
    ensures k < |tables| ==> DocOf(tables, pool).tables[k] == tables[k]
    ensures DocOf(tables, pool).pool == pool
  {
  }

  lemma {:induction false} SubAt(t: Value, p: Path)
    requires TableAt(t, p).Some?
    ensures Sub(t, p).Some? && Sub(t, p).value.Table? && Sub(t, p).value.id == TableAt(t, p).value
  {
  }

  lemma {:induction false} RepTableVal(d: Doc, w: word, t: Value)
    requires RepVal(d, w, t) && t.Table?
    ensures w as nat == t.id && RepTable(d, t)
  {
  }

  lemma {:induction false} MappedIntro(b: bytes, m: map<nat, nat>, arrayN: nat, n: nat)
    requires Exact(b) && Unpack(b, 0) as nat == arrayN <= n && Unpack(b, 4) as nat == n - arrayN
    requires forall i {:trigger SlotOf(arrayN, i)} | 0 <= i < n ::
      8 + i < |b| && Align4(8 + n) + 4 * SlotOf(arrayN, i) + 4 <= |b| &&
      (b[8 + i] == 4 ==> var w := Unpack(b, Align4(8 + n) + 4 * SlotOf(arrayN, i)) as nat; w in m && m[w] < WORD)
    ensures Mapped(b, m)
  {
    hide Unpack;
    hide Align4;
  }

  lemma {:induction false} FlatSlice(v: bytes, index: seq<word>, tables: seq<bytes>, pool: bytes, k: nat)
    requires FileIs(v, index, tables, pool) && k < |tables| && 8 <= |tables[k]|
    ensures var toffset := 8 + 4 * |index| + Offset(tables, k);
      && toffset + |tables[k]| <= |v|
      && v[toffset..toffset + |tables[k]|] == tables[k]
      && Unpack(v, toffset) == Unpack(tables[k], 0) && Unpack(v, toffset + 4) == Unpack(tables[k], 4)
  {
    hide FileIs;
    hide FileDoc;
    hide Flat;
    hide Unpack;
    FileIsReads(v, index, tables, pool);
    FlatAt(tables, k);
    var h, o := 8 + 4 * |index|, Offset(tables, k);
    assert v[h + o..h + o + |tables[k]|] == v[h..][o..o + |tables[k]|] == Flat(tables)[o..o + |tables[k]|];
    UnpackWithin(tables[k], v, 0, h + o);
    UnpackWithin(tables[k], v, 4, h + o);
  }

  lemma {:induction false} SameSizes(ts: seq<bytes>, us: seq<bytes>)
    requires |ts| == |us| && forall k | 0 <= k < |ts| :: |ts[k]| == |us[k]|
    ensures |Flat(ts)| == |Flat(us)|
  {
    if ts != [] {
      SameSizes(ts[..|ts| - 1], us[..|us| - 1]);
    }
  }

  lemma {:induction false} ExactSize(b: bytes)
    requires Exact(b)
    ensures 8 <= |b| == BlobSize(Unpack(b, 0), Unpack(b, 4))
  {
  }

  // `remap(i)`.
  method Remap(current: bytes, i: nat, m: map<nat, nat>, ghost tables: seq<bytes>, ghost pool: bytes) returns (r: bytes)
    requires |Flat(tables)| < WORD && FileIs(current, Offsets(tables), tables, pool)
    requires i < |tables| && Exact(tables[i]) && Mapped(tables[i], m)
    ensures Remapped(tables[i], r, m) && |r| == |tables[i]|
  {
    hide *;
    FileIsReads(current, Offsets(tables), tables, pool);
    ExactSize(tables[i]);
    assert IndexEntry(current, i) == Offsets(tables)[i];
    FlatSlice(current, Offsets(tables), tables, pool, i);
    var toffset := IndexEntry(current, i) as nat + (4 + 4 + 4 * TableCount(current));
    var size := BlobSize(Unpack(current, toffset), Unpack(current, toffset + 4));
    r := RemapBlob(current[toffset..toffset + size], m);
  }

  // Every table of the current version, renumbered, in the same order and at the same offset.
  method RemapAll(current: bytes, m: map<nat, nat>, ghost tables: seq<bytes>, ghost pool: bytes)
      returns (out: seq<bytes>)
    requires |Flat(tables)| < WORD && FileIs(current, Offsets(tables), tables, pool)
    requires forall k | 0 <= k < |tables| :: Exact(tables[k]) && Mapped(tables[k], m)
    ensures |out| == |tables|
    ensures forall k | 0 <= k < |tables| :: Remapped(tables[k], out[k], m) && |out[k]| == |tables[k]|
  {
    hide *;
    FileIsReads(current, Offsets(tables), tables, pool);
    out := [];
    for i := 0 to TableCount(current)
      invariant |out| == i
      invariant forall k | 0 <= k < i :: Remapped(tables[k], out[k], m) && |out[k]| == |tables[k]|
    {
      var r := Remap(current, i, m, tables, pool);
      out := out + [r];
    }
  }

  // ----- diff -----

  ghost predicate IsNew(tl: Value, tr: Value, p: Path) {
    TableAt(tr, p).Some? && TableAt(tl, p).None?
  }

  // dump_table meets the table at `p` before the one at `q`.
  ghost predicate Before(t: Value, p: Path, q: Path) {
    var n := Number(t, 0);
    TableAt(n, p).Some? && TableAt(n, q).Some? && TableAt(n, p).value < TableAt(n, q).value
  }

  // What `v`, holding `tr`, is to a program that held `tl` of the file `last` and wants `t`.
  ghost predicate DiffOf(last: bytes, tl: Value, t: Value, v: bytes, tr: Value) {
    && FileShape(last) && FileShape(v)
    // it is the new sheet
    && Represents(v, tr) && Erase(tr) == Erase(t)
    // a table that stays at its path keeps its number, any other is new
    && (forall p | TableAt(tr, p).Some? && TableAt(tl, p).Some? :: TableAt(tr, p) == TableAt(tl, p))
    && (forall p | TableAt(tr, p).Some? && TableAt(tl, p).None? :: TableAt(tr, p).value >= TableCount(last))
    // new tables are numbered in the order in which they are met
    && (forall p, q | IsNew(tl, tr, p) && IsNew(tl, tr, q) && Before(t, p, q) ::
         TableAt(tr, p).value < TableAt(tr, q).value)
    // no number goes away; those unused are marked
    && TableCount(last) <= TableCount(v)
    && (forall k | 0 <= k < TableCount(v) ::
          IndexEntry(v, k) == UNUSED <==> forall p :: TableAt(tr, p) != Some(k))
    // no new number is wasted
    && (forall k | TableCount(last) <= k < TableCount(v) :: IndexEntry(v, k) != UNUSED)
  }

  ghost predicate EndsInNul(v: bytes) {
    v != [] && v[|v| - 1] == 0
  }

  // The facts about a finished diff, from which DiffOf follows.
  ghost predicate Rebuilt(last: bytes, tl: Value, t: Value, tables: seq<bytes>, pool: bytes,
                          m0: map<nat, nat>, m: map<nat, nat>, newn: nat, index: seq<word>, out: seq<bytes>, v: bytes) {
    && Represents(last, tl)
    && Plain(t) && t.Table? && |tables| == Tables(t)
    && RepTable(DocOf(tables, pool), Number(t, 0))
    && Sound(m0, tl, Number(t, 0)) && Complete(m0, tl, Number(t, 0))
    && Numbering(m0, m, |tables|, TableCount(last), newn)
    && |out| == |tables|
    && (forall k | 0 <= k < |tables| :: Remapped(tables[k], out[k], m) && |out[k]| == |tables[k]|)
    && |index| == newn
    && (forall i | 0 <= i < |tables| :: index[m[i]] == Offset(tables, i))
    && (forall k | 0 <= k < newn && (forall i | 0 <= i < |tables| :: m[i] != k) :: index[k] == UNUSED)
    && FileIs(v, index, out, pool)
  }

  lemma {:induction false} PrefixSizes(ts: seq<bytes>, us: seq<bytes>, k: nat)
    requires |ts| == |us| && forall k | 0 <= k < |ts| :: |ts[k]| == |us[k]|
    requires k <= |ts|
    ensures Offset(ts, k) == Offset(us, k)
  {
    SameSizes(ts[..k], us[..k]);
  }

  lemma {:induction false} RebuiltTable(last: bytes, tl: Value, t: Value, tables: seq<bytes>, pool: bytes,
      m0: map<nat, nat>, m: map<nat, nat>, newn: nat, index: seq<word>, out: seq<bytes>, v: bytes, k: nat)
    requires Rebuilt(last, tl, t, tables, pool, m0, m, newn, index, out, v) && k < |tables|
    ensures FileShape(v) && k in m && m[k] in FileDoc(v).tables && Remapped(tables[k], FileDoc(v).tables[m[k]], m)
  {
    hide Remapped;
    hide RepTable;
    hide FileIs;
    hide FileDoc;
    hide Represents;
    PrefixSizes(tables, out, k);
    FileIsTable(v, index, out, pool, m[k], k);
    RemappedExtends(tables[k], out[k], FileDoc(v).tables[m[k]], m);
  }

  lemma {:induction false} RebuiltRep(last: bytes, tl: Value, t: Value, tables: seq<bytes>, pool: bytes,
      m0: map<nat, nat>, m: map<nat, nat>, newn: nat, index: seq<word>, out: seq<bytes>, v: bytes)
    requires Rebuilt(last, tl, t, tables, pool, m0, m, newn, index, out, v)
    ensures FileShape(v) && RepTable(FileDoc(v), Renum(Number(t, 0), m))
  {
    hide RepTable;
    hide Remapped;
    hide FileDoc;
    hide FileIs;
    hide Represents;
    FileIsReads(v, index, out, pool);
    forall k | k in DocOf(tables, pool).tables
      ensures k in m && m[k] in FileDoc(v).tables && Remapped(tables[k], FileDoc(v).tables[m[k]], m)
    {
      RebuiltTable(last, tl, t, tables, pool, m0, m, newn, index, out, v, k);
    }
    RemapRep(DocOf(tables, pool), FileDoc(v), m, Number(t, 0));
  }

  // Where the tables of the new version are and what numbers they get.
  lemma {:induction false} RebuiltAt(last: bytes, tl: Value, t: Value, tables: seq<bytes>, pool: bytes,
      m0: map<nat, nat>, m: map<nat, nat>, newn: nat, index: seq<word>, out: seq<bytes>, v: bytes, p: Path)
    requires Rebuilt(last, tl, t, tables, pool, m0, m, newn, index, out, v)
    ensures var n, tr := Number(t, 0), Renum(Number(t, 0), m);
      && (TableAt(n, p).Some? ==> TableAt(n, p).value in m && TableAt(tr, p) == Some(m[TableAt(n, p).value]))
      && (TableAt(n, p).None? ==> TableAt(tr, p) == None)
      && (TableAt(tr, p).Some? && TableAt(tl, p).Some? ==> TableAt(tr, p) == TableAt(tl, p))
      && (TableAt(tr, p).Some? && TableAt(tl, p).None? ==> TableAt(tr, p).value >= TableCount(last))
      && (IsNew(tl, tr, p) ==> TableAt(n, p).Some? && TableAt(n, p).value !in m0)
  {
    hide RepTable;
    hide Remapped;
    hide FileIs;
    hide TableAt;
    var n := Number(t, 0);
    if TableAt(n, p).Some? {
      NumberRange(t, 0, p);
      var x := TableAt(n, p).value;
      if x in m0 {
        var q :| TableAt(n, q) == Some(x) && TableAt(tl, q) == Some(m0[x]);
        NumberUnique(t, 0, p, q);
      }
    }
    RenumTableAt(n, m, p);
  }

  lemma {:induction false} RebuiltRepresents(last: bytes, tl: Value, t: Value, tables: seq<bytes>, pool: bytes,
      m0: map<nat, nat>, m: map<nat, nat>, newn: nat, index: seq<word>, out: seq<bytes>, v: bytes)
    requires Rebuilt(last, tl, t, tables, pool, m0, m, newn, index, out, v)
    ensures FileShape(last) && Represents(v, Renum(Number(t, 0), m)) && Erase(Renum(Number(t, 0), m)) == Erase(t)
  {
    hide RepTable;
    hide Remapped;
    hide FileIs;
    hide TableAt;
    hide FileDoc;
    hide Plain;
    var n, tr := Number(t, 0), Renum(Number(t, 0), m);
    RebuiltRep(last, tl, t, tables, pool, m0, m, newn, index, out, v);
    NumberErases(t, 0);
    RenumErases(n, m);
    RebuiltAt(last, tl, t, tables, pool, m0, m, newn, index, out, v, []);
    NumberRoot(t, 0);
    RootAt(n, []);
    RootAt(tr, []);
    RepSize(FileDoc(last), tl);
    RootAt(tl, []);
    forall p, q | TableAt(tr, p).Some? && TableAt(tr, p) == TableAt(tr, q)
      ensures p == q
    {
      RebuiltAt(last, tl, t, tables, pool, m0, m, newn, index, out, v, p);
      RebuiltAt(last, tl, t, tables, pool, m0, m, newn, index, out, v, q);
      NumberUnique(t, 0, p, q);
    }
  }

  // The entry of number `k`: in use exactly when a table of the new version has it.
  lemma {:induction false} RebuiltEntry(last: bytes, tl: Value, t: Value, tables: seq<bytes>, pool: bytes,
      m0: map<nat, nat>, m: map<nat, nat>, newn: nat, index: seq<word>, out: seq<bytes>, v: bytes, k: nat)
    requires Rebuilt(last, tl, t, tables, pool, m0, m, newn, index, out, v) && k < newn
    ensures FileShape(v) && TableCount(v) == newn
    ensures var tr := Renum(Number(t, 0), m);
      IndexEntry(v, k) == UNUSED <==> forall p :: TableAt(tr, p) != Some(k)
    ensures TableCount(last) <= k ==> IndexEntry(v, k) != UNUSED
  {
    hide RepTable;
    hide Remapped;
    hide TableAt;
    hide FileDoc;
    hide Plain;
    hide Sound;
    hide Complete;
    var n, tr := Number(t, 0), Renum(Number(t, 0), m);
    FileIsReads(v, index, out, pool);
    SameSizes(tables, out);
    assert IndexEntry(v, k) == index[k];
    if k in m.Values {
      var i :| i in m && m[i] == k;
      OffsetWithin(tables, i);
      assert index[m[i]] == Offset(tables, i) < UNUSED as int;
      var p := NumberCovers(t, 0, i);
      RebuiltAt(last, tl, t, tables, pool, m0, m, newn, index, out, v, p);
      assert TableAt(tr, p) == Some(k);
    } else {
      forall p
        ensures TableAt(tr, p) != Some(k)
      {
        RebuiltAt(last, tl, t, tables, pool, m0, m, newn, index, out, v, p);
        if TableAt(n, p).Some? {
          assert TableAt(n, p).value < |tables|;
        }
      }
      assert index[k] == UNUSED;
    }
  }

  lemma {:induction false} RebuiltIsDiff(last: bytes, tl: Value, t: Value, tables: seq<bytes>, pool: bytes,
      m0: map<nat, nat>, m: map<nat, nat>, newn: nat, index: seq<word>, out: seq<bytes>, v: bytes)
    requires Rebuilt(last, tl, t, tables, pool, m0, m, newn, index, out, v)
    ensures DiffOf(last, tl, t, v, Renum(Number(t, 0), m))
  {
    hide RepTable;
    hide Remapped;
    hide TableAt;
    hide FileIs;
    hide FileDoc;
    hide Represents;
    hide Plain;
    hide Sound;
    hide Complete;
    var tr := Renum(Number(t, 0), m);
    RebuiltRepresents(last, tl, t, tables, pool, m0, m, newn, index, out, v);
    forall p
      ensures TableAt(tr, p).Some? && TableAt(tl, p).Some? ==> TableAt(tr, p) == TableAt(tl, p)
      ensures TableAt(tr, p).Some? && TableAt(tl, p).None? ==> TableAt(tr, p).value >= TableCount(last)
    {
      RebuiltAt(last, tl, t, tables, pool, m0, m, newn, index, out, v, p);
    }
    forall p, q | IsNew(tl, tr, p) && IsNew(tl, tr, q) && Before(t, p, q)
      ensures TableAt(tr, p).value < TableAt(tr, q).value
    {
      RebuiltAt(last, tl, t, tables, pool, m0, m, newn, index, out, v, p);
      RebuiltAt(last, tl, t, tables, pool, m0, m, newn, index, out, v, q);
    }
    FileIsReads(v, index, out, pool);
    forall k | 0 <= k < TableCount(v)
      ensures IndexEntry(v, k) == UNUSED <==> forall p :: TableAt(tr, p) != Some(k)
      ensures TableCount(last) <= k ==> IndexEntry(v, k) != UNUSED
    {
      RebuiltEntry(last, tl, t, tables, pool, m0, m, newn, index, out, v, k);
    }
  }

  // The map of the shared tables has numbers of both versions in range, and is injective.
  lemma {:induction false} SharedRange(last: bytes, tl: Value, t: Value, m0: map<nat, nat>)
    requires Represents(last, tl) && Plain(t) && t.Table?
    requires Sound(m0, tl, Number(t, 0))
    ensures Injective(m0)
    ensures forall x | x in m0 :: x < Tables(t) && m0[x] < TableCount(last)
  {
    SoundInjective(m0, tl, Number(t, 0));
    forall x | x in m0
      ensures x < Tables(t) && m0[x] < TableCount(last)
    {
      var p :| TableAt(Number(t, 0), p) == Some(x) && TableAt(tl, p) == Some(m0[x]);
      NumberRange(t, 0, p);
      SubRep(FileDoc(last), tl, p);
      SubAt(tl, p);
      RepSize(FileDoc(last), Sub(tl, p).value);
    }
  }

  // `last` holds `tl`; `current` is a dump of `t`.
  method Diff(last: bytes, current: bytes, ghost tl: Value, ghost t: Value) returns (r: Result<bytes>, ghost tr: Value)
    requires Represents(last, tl) && IsDumpOf(current, t)
    ensures r.Ok? ==> DiffOf(last, tl, t, r.value, tr) && EndsInNul(r.value)
    ensures 8 <= |last| && 8 <= |current|
    ensures r.Overflow? <==> NewSize(current, Unpack(last, 4) as nat + |Fresh(tl, t)|) >= WORD
  {
    hide *;
    DumpRepresents(current, t);
    ghost var tables, pool := DumpFileOf(current, t);
    DumpFileIs(current, t, tables, pool);
    var m0 := DiffMap(last, current, tl, Number(t, 0));
    FreshIsMissing(tl, t, m0);
    DocumentShape(last, tl);
    DocumentShape(current, Number(t, 0));
    r, tr := Rebuild(last, current, m0, tl, t, tables, pool);
  }

  lemma {:induction false} DumpFileOf(v: bytes, t: Value) returns (tables: seq<bytes>, pool: bytes)
    requires IsDumpOf(v, t)
    ensures DumpFile(v, t, tables, pool)
  {
    hide DumpFile;
    tables, pool :| DumpFile(v, t, tables, pool);
  }

  lemma {:induction false} DumpFileIs(v: bytes, t: Value, tables: seq<bytes>, pool: bytes)
    requires DumpFile(v, t, tables, pool)
    ensures Plain(t) && t.Table? && |tables| == Tables(t) && |Flat(tables)| < WORD
    ensures forall k | 0 <= k < |tables| :: Exact(tables[k])
    ensures FileIs(v, Offsets(tables), tables, pool)
    ensures RepTable(DocOf(tables, pool), Number(t, 0))
    ensures pool != [] && pool[|pool| - 1] == 0
  {
  }

  lemma ShapeSizes(v: bytes)
    requires FileShape(v)
    ensures 8 + 4 * TableCount(v) <= |v|
  {
  }

  lemma {:induction false} DocumentShape(v: bytes, t: Value)
    requires Represents(v, t)
    ensures FileShape(v) && 8 + 4 * TableCount(v) <= |v| && Unpack(v, 0) as int <= |v|
    ensures TableCount(v) == Unpack(v, 4) as int
  {
  }

  lemma {:induction false} NumberingRange(m0: map<nat, nat>, m: map<nat, nat>, n: nat, lastn: nat, newn: nat)
    requires Numbering(m0, m, n, lastn, newn)
    ensures Injective(m) && lastn <= newn
    ensures forall x: nat :: x in m <==> x < n
    ensures forall x | x in m :: m[x] < newn
  {
  }

  lemma {:induction false} OldIndex(v: bytes)
    requires FileShape(v)
    ensures 8 + 4 * TableCount(v) <= |v|
    ensures forall i {:trigger UnpackAll(v, 8, TableCount(v))[i]} | 0 <= i < TableCount(v) ::
      UnpackAll(v, 8, TableCount(v))[i] == IndexEntry(v, i)
  {
  }

  lemma {:induction false} NewFile(stringtbl: word, index: seq<word>, out: seq<bytes>, pool: bytes)
    requires stringtbl as int == 8 + 4 * |index| + |Flat(out)|
    ensures |index| < WORD
    ensures FileIs(Pack(stringtbl) + Pack(|index|) + PackAll(index) + Flat(out) + pool, index, out, pool)
    ensures pool != [] && pool[|pool| - 1] == 0 ==>
      EndsInNul(Pack(stringtbl) + Pack(|index|) + PackAll(index) + Flat(out) + pool)
  {
  }

  lemma {:induction false} RebuiltIntro(last: bytes, tl: Value, t: Value, tables: seq<bytes>, pool: bytes,
      m0: map<nat, nat>, m: map<nat, nat>, newn: nat, index: seq<word>, out: seq<bytes>, v: bytes)
    requires Represents(last, tl)
    requires Plain(t) && t.Table? && |tables| == Tables(t)
    requires RepTable(DocOf(tables, pool), Number(t, 0))
    requires Sound(m0, tl, Number(t, 0)) && Complete(m0, tl, Number(t, 0))
    requires FileShape(last) && Numbering(m0, m, |tables|, TableCount(last), newn)
    requires |out| == |tables|
    requires forall k | 0 <= k < |tables| :: Remapped(tables[k], out[k], m) && |out[k]| == |tables[k]|
    requires forall x: nat :: x in m <==> x < |tables|
    requires |index| == newn && forall x | x in m :: m[x] < newn
    requires forall i | 0 <= i < |tables| :: index[m[i]] == Offset(tables, i)
    requires forall k | 0 <= k < newn && (forall i | 0 <= i < |tables| :: m[i] != k) :: index[k] == UNUSED
    requires FileIs(v, index, out, pool)
    ensures Rebuilt(last, tl, t, tables, pool, m0, m, newn, index, out, v)
  {
    hide RepTable;
    hide Remapped;
    hide Represents;
    hide FileIs;
    hide Sound;
    hide Complete;
    hide Plain;
    hide Offset;
  }

  // Where the strings of the diff of `current` start when it has `n` tables.
  ghost function NewSize(current: bytes, n: nat): int
    requires 8 <= |current|
  {
    Unpack(current, 0) as int + (n as int - Unpack(current, 4) as int) * 4
  }

  lemma NewSizeIs(current: bytes, n: nat)
    requires FileShape(current)
    ensures 8 <= |current|
      && NewSize(current, n) == Unpack(current, 0) as int + (n as int - TableCount(current) as int) * 4
  {
  }

  // The tables of `t` that are at no table's path in `tl`.
  ghost predicate IsFresh(tl: Value, t: Value, k: nat) {
    forall p | TableAt(Number(t, 0), p) == Some(k) :: TableAt(tl, p).None?
  }

  ghost function Fresh(tl: Value, t: Value): set<nat> {
    set k: nat | k < Tables(t) && IsFresh(tl, t, k)
  }

  lemma {:induction false} FreshIsMissing(tl: Value, t: Value, m0: map<nat, nat>)
    requires Plain(t) && t.Table? && Sound(m0, tl, Number(t, 0)) && Complete(m0, tl, Number(t, 0))
    ensures Fresh(tl, t) == Missing(m0, Tables(t))
  {
    hide TableAt;
    hide Number;
    hide Plain;
    forall k | 0 <= k < Tables(t)
      ensures IsFresh(tl, t, k) <==> k !in m0
    {
      if k in m0 {
        var p :| TableAt(Number(t, 0), p) == Some(k) && TableAt(tl, p) == Some(m0[k]);
      } else {
        forall p | TableAt(Number(t, 0), p) == Some(k)
          ensures TableAt(tl, p).None?
        {
        }
      }
    }
  }

  method Rebuild(last: bytes, current: bytes, m0: map<nat, nat>, ghost tl: Value, ghost t: Value,
                 ghost tables: seq<bytes>, ghost pool: bytes) returns (r: Result<bytes>, ghost tr: Value)
    requires Represents(last, tl) && DumpFile(current, t, tables, pool)
    requires Sound(m0, tl, Number(t, 0)) && Complete(m0, tl, Number(t, 0))
    ensures r.Ok? ==> DiffOf(last, tl, t, r.value, tr) && EndsInNul(r.value)
    ensures r.Overflow? <==> NewSize(current, Unpack(last, 4) as nat + |Missing(m0, Tables(t))|) >= WORD
  {
    hide *;
    tr := t;
    DumpFileIs(current, t, tables, pool);
    FileIsReads(current, Offsets(tables), tables, pool);
    DocumentShape(last, tl);
    ShapeSizes(current);
    SharedRange(last, tl, t, m0);
    Limits();
    var n, lastn := TableCount(current), TableCount(last);
    var m, newn := Extend(m0, n, lastn);
    NumberingRange(m0, m, n, lastn, newn);
    var stringtbl: int := Unpack(current, 0) as int + (newn as int - n as int) * 4;
    NewSizeIs(current, newn);
    if stringtbl >= WORD {
      return Overflow, tr;
    }
    forall k | 0 <= k < |tables|
      ensures Mapped(tables[k], m)
    {
      DumpMapped(t, tables, pool, m, k);
    }
    var oldindex := UnpackAll(current, 8, n);
    OldIndex(current);
    var index := Reindex(m, oldindex, newn);
    var out := RemapAll(current, m, tables, pool);
    SameSizes(tables, out);
    var v := Pack(stringtbl) + Pack(newn) + PackAll(index) + Flat(out) + current[Unpack(current, 0)..];
    NewFile(stringtbl, index, out, pool);
    RebuiltIntro(last, tl, t, tables, pool, m0, m, newn, index, out, v);
    RebuiltIsDiff(last, tl, t, tables, pool, m0, m, newn, index, out, v);
    return Ok(v), Renum(Number(t, 0), m);
  }

  // ----- The laws -----

  // undump(dump(t)) is t, its tables numbered in preorder.
  lemma {:induction false} RoundTrip(v: bytes, t: Value, r: Value)
    requires IsDumpOf(v, t) && Represents(v, r)
    ensures r == Number(t, 0) && Erase(r) == Erase(t)
  {
    DumpRepresents(v, t);
    RepresentsUnique(v, r, Number(t, 0));
    NumberErases(t, 0);
  }

  // undump(diff(last, dump(t))) is t, whatever the last version was: reading `v` gives the one
  // tree it can hold, and that is `t` under stable numbers.
  lemma {:induction false} DiffRoundTrip(last: bytes, tl: Value, t: Value, v: bytes, tr: Value, r: Value)
    requires DiffOf(last, tl, t, v, tr) && Represents(v, r)
    ensures r == tr && Erase(r) == Erase(t)
    ensures forall p | TableAt(r, p).Some? && TableAt(tl, p).Some? :: TableAt(r, p) == TableAt(tl, p)
  {
    hide Represents;
    hide TableAt;
    DiffOfRepresents(last, tl, t, v, tr);
    RepresentsUnique(v, r, tr);
  }

  lemma {:induction false} DiffOfRepresents(last: bytes, tl: Value, t: Value, v: bytes, tr: Value)
    requires DiffOf(last, tl, t, v, tr)
    ensures Represents(v, tr) && Erase(tr) == Erase(t)
  {
  }
}
