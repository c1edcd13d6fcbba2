/**
 The datasheet file format: a document is an index table, the encoded tables and a pool of
 NUL-terminated strings. `RepTable` says what a table of a document means; it recurses on the
 tree, so it needs no order between the index numbers of a table and of its sub-tables.
 */
module Datasheet {
  import opened Words

  // A value of a sheet. A table holds its array part followed by the values of its string keys,
  // `keys[j]` belonging to the item `|items| - |keys| + j`, in the order `pairs` visits them.
  // `id` is the index number that `undump` reports for the table; `dump` ignores it.
  datatype Value =
    | Int(i: int)
    | Real(bits: word)
    | Bool(b: bool)
    | Str(s: bytes)
    | Table(id: nat, items: seq<Value>, keys: seq<bytes>)

  datatype Result<+T> = Ok(value: T) | Overflow

  predicate NoNul(s: bytes) { 0 !in s }

  // The sheets the format is for: 32-bit integers, NUL-free strings, a contiguous array part.
  predicate Plain(v: Value) {
    match v
    case Int(i) => -HALF <= i < HALF
    case Real(_) => true
    case Bool(_) => true
    case Str(s) => NoNul(s)
    case Table(_, items, keys) =>
      && |keys| <= |items|
      && Distinct(keys)
      && (forall j | 0 <= j < |keys| :: NoNul(keys[j]))
      && (forall i | 0 <= i < |items| :: Plain(items[i]))
  }

  // The tree without its index numbers: what a program sees.
  function Erase(v: Value): Value
    decreases v, 0
  {
    if v.Table? then Table(0, EraseUpTo(v.items, |v.items|), v.keys) else v
  }

  function EraseUpTo(items: seq<Value>, i: nat): (r: seq<Value>)
    requires i <= |items|
    ensures |r| == i
    ensures forall k {:trigger r[k]} | 0 <= k < i :: r[k] == Erase(items[k])
    decreases items, i
  {
    if i == 0 then [] else EraseUpTo(items, i - 1) + [Erase(items[i - 1])]
  }

  function TypeCode(v: Value): byte {
    match v
    case Int(_) => 1
    case Real(_) => 2
    case Bool(_) => 3
    case Table(_, _, _) => 4
    case Str(_) => 5
  }

  function Align4(n: nat): nat { (n + 3) / 4 * 4 }

  function BlobSize(arrayN: nat, dictN: nat): nat {
    Align4(8 + arrayN + dictN) + 4 * (arrayN + 2 * dictN)
  }

  // Positions, among the words after the types, of the value of item `i` and of key `j`.
  function SlotOf(arrayN: nat, i: nat): nat {
    if i < arrayN then i else arrayN + 2 * (i - arrayN) + 1
  }

  function KeySlot(arrayN: nat, j: nat): nat { arrayN + 2 * j }

  // Encoded tables by index number (each possibly followed by other bytes) and the string pool.
  datatype Doc = Doc(tables: map<nat, bytes>, pool: bytes)

  ghost predicate PoolHas(pool: bytes, off: nat, s: bytes) {
    && off + |s| < |pool|
    && pool[off..off + |s|] == s
    && pool[off + |s|] == 0
    && NoNul(s)
  }

  ghost predicate Shape(b: bytes, items: seq<Value>, dictN: nat) {
    && dictN <= |items|
    && |b| >= BlobSize(|items| - dictN, dictN)
    && Unpack(b, 0) == |items| - dictN
    && Unpack(b, 4) == dictN
    && forall i | 0 <= i < |items| :: b[8 + i] == TypeCode(items[i])
  }

  // Word `k` after the types of an encoded table of `n` items.
  function BodyWord(b: bytes, n: nat, k: nat): word
    requires Align4(8 + n) + 4 * k + 4 <= |b|
  {
    Unpack(b, Align4(8 + n) + 4 * k)
  }

  ghost predicate RepTable(d: Doc, t: Value)
    decreases t, 0
  {
    && t.Table?
    && t.id in d.tables
    && var b, n, dictN := d.tables[t.id], |t.items|, |t.keys|;
    && Shape(b, t.items, dictN)
    && (forall i | 0 <= i < n :: RepVal(d, BodyWord(b, n, SlotOf(n - dictN, i)), t.items[i]))
    && (forall j | 0 <= j < dictN :: PoolHas(d.pool, BodyWord(b, n, KeySlot(n - dictN, j)), t.keys[j]))
  }

  ghost predicate RepVal(d: Doc, w: word, v: Value)
    decreases v, 1
  {
    match v
    case Int(i) => ToSigned(w) == i
    case Real(bits) => w == bits
    case Bool(b) => (w != 0) == b
    case Str(s) => PoolHas(d.pool, w, s)
    case Table(id, _, _) => w == id && RepTable(d, v)
  }

  // What an encoded table says of its size, of item `i` and of key `j`.
  lemma {:induction false} RepSize(d: Doc, t: Value)
    requires RepTable(d, t)
    ensures t.Table? && t.id in d.tables && |t.keys| <= |t.items|
    ensures |d.tables[t.id]| >= BlobSize(|t.items| - |t.keys|, |t.keys|) >= 8 + |t.items|
    ensures Unpack(d.tables[t.id], 0) == |t.items| - |t.keys| && Unpack(d.tables[t.id], 4) == |t.keys|
  {
    hide RepVal;
    hide PoolHas;
  }

  lemma {:induction false} RepItem(d: Doc, t: Value, i: nat)
    requires RepTable(d, t) && t.Table? && i < |t.items|
    ensures t.id in d.tables && |t.keys| <= |t.items|
    ensures var b, n, k := d.tables[t.id], |t.items|, SlotOf(|t.items| - |t.keys|, i);
      && 8 + i < |b| && b[8 + i] == TypeCode(t.items[i])
      && Align4(8 + n) + 4 * k + 4 <= |b|
      && RepVal(d, Unpack(b, Align4(8 + n) + 4 * k), t.items[i])
  {
    hide RepVal;
    hide PoolHas;
    var b, n, dictN := d.tables[t.id], |t.items|, |t.keys|;
    assert RepVal(d, BodyWord(b, n, SlotOf(n - dictN, i)), t.items[i]);
  }

  lemma {:induction false} RepKey(d: Doc, t: Value, j: nat)
    requires RepTable(d, t) && t.Table? && j < |t.keys|
    ensures t.id in d.tables && |t.keys| <= |t.items|
    ensures var b, n, k := d.tables[t.id], |t.items|, KeySlot(|t.items| - |t.keys|, j);
      && Align4(8 + n) + 4 * k + 8 <= |b|
      && PoolHas(d.pool, Unpack(b, Align4(8 + n) + 4 * k), t.keys[j])
  {
    hide RepVal;
    hide PoolHas;
    var b, n, dictN := d.tables[t.id], |t.items|, |t.keys|;
    assert PoolHas(d.pool, BodyWord(b, n, KeySlot(n - dictN, j)), t.keys[j]);
  }

  // The converse: a table is encoded when its size, its items and its keys read right.
  lemma {:induction false} RepIntro(d: Doc, t: Value)
    requires t.Table? && t.id in d.tables && |t.keys| <= |t.items|
    requires |d.tables[t.id]| >= BlobSize(|t.items| - |t.keys|, |t.keys|)
    requires Unpack(d.tables[t.id], 0) == |t.items| - |t.keys| && Unpack(d.tables[t.id], 4) == |t.keys|
    requires forall i | 0 <= i < |t.items| ::
      && d.tables[t.id][8 + i] == TypeCode(t.items[i])
      && RepVal(d, Unpack(d.tables[t.id], Align4(8 + |t.items|) + 4 * SlotOf(|t.items| - |t.keys|, i)), t.items[i])
    requires forall j | 0 <= j < |t.keys| ::
      PoolHas(d.pool, Unpack(d.tables[t.id], Align4(8 + |t.items|) + 4 * KeySlot(|t.items| - |t.keys|, j)), t.keys[j])
    ensures RepTable(d, t)
  {
    hide RepVal;
    hide PoolHas;
  }

  // `e` keeps every byte `d` has, at the same table number or pool offset, and may have more.
  ghost predicate Extends(d: Doc, e: Doc) {
    && (forall k | k in d.tables :: k in e.tables && d.tables[k] <= e.tables[k])
    && d.pool <= e.pool
  }

  lemma {:induction false} PoolHasExtends(p: bytes, q: bytes, off: nat, s: bytes)
    requires p <= q && PoolHas(p, off, s)
    ensures PoolHas(q, off, s)
  {
    assert q[off..off + |s|] == p[off..off + |s|];
  }

  lemma {:induction false} PrefixReads(b: bytes, c: bytes)
    requires b <= c
    ensures forall o: nat {:trigger Unpack(b, o)} {:trigger Unpack(c, o)} | o + 4 <= |b| :: Unpack(c, o) == Unpack(b, o)
    ensures forall items, dictN | Shape(b, items, dictN) :: Shape(c, items, dictN)
  {
    forall o: nat | o + 4 <= |b|
      ensures Unpack(c, o) == Unpack(b, o)
    {
      UnpackWithin(b, c, o, 0);
    }
  }

  lemma {:induction false} RepValExtends(d: Doc, e: Doc, w: word, v: Value)
    requires Extends(d, e) && RepVal(d, w, v)
    ensures RepVal(e, w, v)
    decreases v, 1
  {
    match v
    case Str(s) => PoolHasExtends(d.pool, e.pool, w, s);
    case Table(_, _, _) => RepTableExtends(d, e, v);
    case _ =>
  }

  lemma {:induction false} RepTableExtends(d: Doc, e: Doc, t: Value)
    requires Extends(d, e) && RepTable(d, t)
    ensures RepTable(e, t)
    decreases t, 0
  {
    var b, c, n, dictN := d.tables[t.id], e.tables[t.id], |t.items|, |t.keys|;
    PrefixReads(b, c);
    forall i | 0 <= i < n
      ensures RepVal(e, BodyWord(c, n, SlotOf(n - dictN, i)), t.items[i])
    {
      RepValExtends(d, e, BodyWord(b, n, SlotOf(n - dictN, i)), t.items[i]);
    }
    forall j | 0 <= j < dictN
      ensures PoolHas(e.pool, BodyWord(c, n, KeySlot(n - dictN, j)), t.keys[j])
    {
      PoolHasExtends(d.pool, e.pool, BodyWord(b, n, KeySlot(n - dictN, j)), t.keys[j]);
    }
  }

  lemma {:induction false} PoolHasUnique(pool: bytes, off: nat, s: bytes, t: bytes)
    requires PoolHas(pool, off, s) && PoolHas(pool, off, t)
    ensures s == t
  {
    forall k | off <= k < off + |s|
      ensures pool[k] == s[k - off]
    {
      assert pool[off..off + |s|][k - off] == pool[k];
    }
    forall k | off <= k < off + |t|
      ensures pool[k] == t[k - off]
    {
      assert pool[off..off + |t|][k - off] == pool[k];
    }
  }

  // A document determines the tree: no two trees are encoded by the same bytes.
  lemma {:induction false} RepTableUnique(d: Doc, s: Value, t: Value)
    requires RepTable(d, s) && RepTable(d, t) && s.id == t.id
    ensures s == t
    decreases s
  {
    var b, n, dictN := d.tables[s.id], |s.items|, |s.keys|;
    assert |t.items| == n && |t.keys| == dictN;
    forall i | 0 <= i < n
      ensures s.items[i] == t.items[i]
    {
      var w := BodyWord(b, n, SlotOf(n - dictN, i));
      assert RepVal(d, w, s.items[i]) && RepVal(d, w, t.items[i]);
      assert TypeCode(s.items[i]) == b[8 + i] == TypeCode(t.items[i]);
      match s.items[i]
      case Str(x) => PoolHasUnique(d.pool, w, x, t.items[i].s);
      case Table(_, _, _) => RepTableUnique(d, s.items[i], t.items[i]);
      case _ =>
    }
    forall j | 0 <= j < dictN
      ensures s.keys[j] == t.keys[j]
    {
      PoolHasUnique(d.pool, BodyWord(b, n, KeySlot(n - dictN, j)), s.keys[j], t.keys[j]);
    }
  }

  // ----- Paths -----

  datatype Key = At(i: nat) | Name(s: bytes)
  type Path = seq<Key>

  function FindKey(keys: seq<bytes>, s: bytes): (j: nat)
    requires s in keys
    ensures j < |keys| && keys[j] == s
  {
    if keys[0] == s then 0 else 1 + FindKey(keys[1..], s)
  }

  // t[k]
  function Lookup(t: Value, k: Key): Option<Value> {
    if !t.Table? || |t.keys| > |t.items| then None
    else if k.At? then
      if k.i < |t.items| - |t.keys| then Some(t.items[k.i]) else None
    else if k.s in t.keys then Some(t.items[|t.items| - |t.keys| + FindKey(t.keys, k.s)])
    else None
  }

  // The key under which item `i` sits.
  function KeyOf(t: Value, i: nat): Key
    requires t.Table? && |t.keys| <= |t.items| && i < |t.items|
  {
    var arrayN := |t.items| - |t.keys|;
    if i < arrayN then At(i) else Name(t.keys[i - arrayN])
  }

  lemma {:induction false} LookupKey(t: Value, k: Key) returns (i: nat)
    requires Lookup(t, k).Some?
    ensures t.Table? && |t.keys| <= |t.items|
    ensures i < |t.items| && k == KeyOf(t, i) && Lookup(t, k) == Some(t.items[i])
  {
    i := if k.At? then k.i else |t.items| - |t.keys| + FindKey(t.keys, k.s);
  }

  lemma {:induction false} LookupKeyOf(t: Value, i: nat)
    requires t.Table? && |t.keys| <= |t.items| && i < |t.items| && Distinct(t.keys)
    ensures Lookup(t, KeyOf(t, i)) == Some(t.items[i])
  {
    var arrayN := |t.items| - |t.keys|;
    if i >= arrayN {
      assert t.keys[i - arrayN] in t.keys;
    }
  }

  ghost function Sub(t: Value, p: Path): Option<Value>
    decreases |p|
  {
    if p == [] then Some(t)
    else match Lookup(t, p[0])
      case None => None
      case Some(v) => Sub(v, p[1..])
  }

  // The index number of the table at path `p`, if there is a table there.
  ghost function TableAt(t: Value, p: Path): Option<nat> {
    match Sub(t, p)
    case Some(Table(id, _, _)) => Some(id)
    case _ => None
  }

  lemma {:induction false} RootAt(t: Value, p: Path)
    ensures p == [] && t.Table? ==> TableAt(t, p) == Some(t.id)
    ensures p == [] && !t.Table? ==> TableAt(t, p) == None
    ensures p != [] && TableAt(t, p).Some? ==>
      t.Table? && |t.keys| <= |t.items| && Lookup(t, p[0]).Some?
          && TableAt(t, p) == TableAt(Lookup(t, p[0]).value, p[1..])
  {
  }

  ghost predicate UniqueIds(t: Value) {
    forall p, q | TableAt(t, p).Some? && TableAt(t, p) == TableAt(t, q) :: p == q
  }

  lemma {:induction false} SubExtend(t: Value, p: Path, k: Key)
    requires Sub(t, p).Some?
    ensures Sub(t, p + [k]) == Lookup(Sub(t, p).value, k)
    decreases |p|
  {
    if p == [] {
      assert p + [k] == [k];
    } else {
      assert (p + [k])[1..] == p[1..] + [k];
      SubExtend(Lookup(t, p[0]).value, p[1..], k);
    }
  }

  // Every sub-table of an encoded table is encoded.
  lemma {:induction false} SubRep(d: Doc, t: Value, p: Path)
    requires RepTable(d, t) && TableAt(t, p).Some?
    ensures RepTable(d, Sub(t, p).value)
    decreases |p|
  {
    if p != [] {
      var i := LookupKey(t, p[0]);
      assert RepVal(d, BodyWord(d.tables[t.id], |t.items|, SlotOf(|t.items| - |t.keys|, i)), t.items[i]);
      assert TableAt(t.items[i], p[1..]) == TableAt(t, p);
      SubRep(d, t.items[i], p[1..]);
    }
  }

  // ----- Documents as files -----

  predicate FileShape(v: bytes) {
    && 8 <= |v|
    && 8 + 4 * Unpack(v, 4) as int <= |v|
    && Unpack(v, 0) as int <= |v|
  }

  function TableCount(v: bytes): nat
    requires FileShape(v)
  {
    Unpack(v, 4)
  }

  function IndexEntry(v: bytes, k: nat): word
    requires FileShape(v) && k < TableCount(v)
  {
    Unpack(v, 8 + 4 * k)
  }

  // How `undump` reads a file: table `k` starts at its index entry after the index table.
  function FileDoc(v: bytes): Doc
    requires FileShape(v)
  {
    var h := 8 + 4 * TableCount(v);
    Doc(map k: nat | k < TableCount(v) && h + IndexEntry(v, k) as int <= |v| :: v[h + IndexEntry(v, k)..],
        v[Unpack(v, 0)..])
  }

  function TableStart(v: bytes, k: nat): nat
    requires FileShape(v) && k < TableCount(v)
  {
    IndexEntry(v, k) as nat + (4 + 4 + 4 * TableCount(v))
  }

  lemma {:induction false} FileTable(v: bytes, k: nat)
    requires FileShape(v) && k in FileDoc(v).tables
    ensures k < TableCount(v) && TableStart(v, k) <= |v|
    ensures FileDoc(v).tables[k] == v[TableStart(v, k)..]
    ensures |FileDoc(v).tables[k]| == |v| - TableStart(v, k)
    ensures forall i {:trigger FileDoc(v).tables[k][i]} | 0 <= i < |FileDoc(v).tables[k]| ::
      FileDoc(v).tables[k][i] == v[TableStart(v, k) + i]
  {
  }

  // File `v` holds tree `t`, whose root is table 0 and whose tables carry their index numbers.
  ghost predicate Represents(v: bytes, t: Value) {
    && FileShape(v)
    && Plain(t)
    && RepTable(FileDoc(v), t)
    && t.id == 0
    && UniqueIds(t)
  }

  ghost predicate IsDocument(v: bytes) {
    exists t :: Represents(v, t)
  }

  lemma {:induction false} RepresentsUnique(v: bytes, s: Value, t: Value)
    requires Represents(v, s) && Represents(v, t)
    ensures s == t
  {
    RepTableUnique(FileDoc(v), s, t);
  }

  lemma {:induction false} FileDocSuffix(v: bytes, suffix: bytes)
    requires FileShape(v)
    ensures FileShape(v + suffix) && TableCount(v + suffix) == TableCount(v)
    ensures forall k | 0 <= k < TableCount(v) :: IndexEntry(v + suffix, k) == IndexEntry(v, k)
    ensures Extends(FileDoc(v), FileDoc(v + suffix))
  {
    var w := v + suffix;
    UnpackWithin(v, w, 0, 0);
    UnpackWithin(v, w, 4, 0);
    hide FileDoc;
    forall k | 0 <= k < TableCount(v)
      ensures IndexEntry(w, k) == IndexEntry(v, k)
    {
      UnpackWithin(v, w, 8 + 4 * k, 0);
    }
    FileDocPrefix(v, w);
  }

  lemma {:induction false} FileDocPrefix(v: bytes, w: bytes)
    requires FileShape(v) && FileShape(w) && v <= w
    requires TableCount(w) == TableCount(v) && Unpack(w, 0) == Unpack(v, 0)
    requires forall k {:trigger IndexEntry(w, k)} | 0 <= k < TableCount(v) :: IndexEntry(w, k) == IndexEntry(v, k)
    ensures Extends(FileDoc(v), FileDoc(w))
  {
    hide Unpack;
    forall o: nat | o <= |v|
      ensures v[o..] <= w[o..]
    {
      assert w[o..] == v[o..] + w[|v|..];
    }
  }

  // Bytes after the end of a document do not change what it means.
  lemma {:induction false} RepresentsSuffix(v: bytes, suffix: bytes, t: Value)
    requires Represents(v, t)
    ensures Represents(v + suffix, t)
  {
    FileDocSuffix(v, suffix);
    RepTableExtends(FileDoc(v), FileDoc(v + suffix), t);
  }
}
