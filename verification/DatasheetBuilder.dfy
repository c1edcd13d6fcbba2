/** `datasheet.builder`: each sheet is kept as a chain of versions, every one a diff of the one before. */
module DatasheetBuilder {
  import opened Words
  import opened Datasheet
  import opened DatasheetFile
  import opened DatasheetDump
  import opened DatasheetDiff

  // tostring(n)
  function Decimal(n: nat): (s: bytes)
    ensures s != [] && forall i | 0 <= i < |s| :: s[i] != 0
  {
    if n < 10 then [48 + n] else Decimal(n / 10) + [48 + n % 10]
  }

  lemma {:induction false} DecimalInjective(m: nat, n: nat)
    requires Decimal(m) == Decimal(n)
    ensures m == n
    decreases m
  {
    var s, t := Decimal(m), Decimal(n);
    assert s[|s| - 1] == 48 + m % 10 && t[|t| - 1] == 48 + n % 10;
    assert (m >= 10 <==> |s| > 1) && (n >= 10 <==> |t| > 1);
    if m >= 10 {
      assert s[..|s| - 1] == Decimal(m / 10) && t[..|t| - 1] == Decimal(n / 10);
      DecimalInjective(m / 10, n / 10);
    }
  }

  // Documents end in a zero byte, so appending a number never makes two of them equal.
  lemma {:induction false} UniqueStrings(v: bytes, w: bytes, i: nat, j: nat)
    requires EndsInNul(v) && EndsInNul(w) && i != j
    ensures v + Decimal(i) != w + Decimal(j)
  {
    var s, t := v + Decimal(i), w + Decimal(j);
    forall k | |v| <= k < |s|
      ensures s[k] != 0
    {
      assert s[k] == Decimal(i)[k - |v|];
    }
    forall k | |w| <= k < |t|
      ensures t[k] != 0
    {
      assert t[k] == Decimal(j)[k - |w|];
    }
    assert s[|v| - 1] == 0 && t[|w| - 1] == 0;
    if s == t {
      assert |v| == |w|;
      assert s[|v|..] == Decimal(i) && t[|w|..] == Decimal(j);
      DecimalInjective(i, j);
    }
  }

  lemma {:induction false} DiffOfSuffix(last: bytes, tl: Value, t: Value, v: bytes, tr: Value, suffix: bytes)
    requires DiffOf(last, tl, t, v, tr)
    ensures DiffOf(last, tl, t, v + suffix, tr)
  {
    hide Represents;
    hide FileDoc;
    hide TableAt;
    FileDocSuffix(v, suffix);
    RepresentsSuffix(v, suffix, tr);
  }

  lemma {:induction false} RootIsZero(v: bytes, t: Value)
    requires Represents(v, t)
    ensures FileShape(v) && TableAt(t, []) == Some(0)
  {
    RepSize(FileDoc(v), t);
    RootAt(t, []);
  }

  // ----- Versions -----

  // A version of a sheet. A diff names the string it was made against.
  datatype Version = Version(file: bytes, sheet: Value, base: Option<bytes>)

  // `v` is a dump, or a diff of its base.
  ghost predicate Made(v: Version) {
    && Represents(v.file, v.sheet)
    && (v.base.Some? ==> exists tl ::
         Represents(v.base.value, tl) && DiffOf(v.base.value, tl, v.sheet, v.file, v.sheet))
  }

  lemma MadeParts(v: Version)
    requires Made(v)
    ensures Represents(v.file, v.sheet)
  {
    hide Represents;
    hide DiffOf;
  }

  // Each version is a diff made of the one before it.
  ghost predicate Chain(vs: seq<Version>) {
    && (forall i | 0 <= i < |vs| :: Made(vs[i]))
    && (forall i | 0 < i < |vs| :: vs[i].base == Some(vs[i - 1].file))
  }

  lemma {:induction false} ChainStep(vs: seq<Version>, i: nat)
    requires Chain(vs) && 0 < i < |vs|
    ensures FileShape(vs[i - 1].file) && FileShape(vs[i].file)
    ensures DiffOf(vs[i - 1].file, vs[i - 1].sheet, vs[i].sheet, vs[i].file, vs[i].sheet)
    ensures TableCount(vs[i - 1].file) <= TableCount(vs[i].file)
    ensures forall p | TableAt(vs[i].sheet, p).Some? && TableAt(vs[i - 1].sheet, p).Some? ::
      TableAt(vs[i].sheet, p) == TableAt(vs[i - 1].sheet, p)
  {
    hide Represents;
    hide TableAt;
    assert Made(vs[i]) && Made(vs[i - 1]);
    var tl :| Represents(vs[i - 1].file, tl) && DiffOf(vs[i - 1].file, tl, vs[i].sheet, vs[i].file, vs[i].sheet);
    RepresentsUnique(vs[i - 1].file, tl, vs[i - 1].sheet);
  }

  // Over any number of updates that each start from the version before, the index table never shrinks,
  // the root is table 0, and a table that stays at its path through all of them keeps its number.
  lemma {:induction false} ChainStable(vs: seq<Version>, i: nat, j: nat, p: Path)
    requires Chain(vs) && i <= j < |vs|
    requires forall k | i <= k <= j :: TableAt(vs[k].sheet, p).Some?
    ensures TableAt(vs[j].sheet, p) == TableAt(vs[i].sheet, p)
    ensures FileShape(vs[i].file) && FileShape(vs[j].file) && TableCount(vs[i].file) <= TableCount(vs[j].file)
    ensures TableAt(vs[j].sheet, []) == Some(0)
    decreases j - i
  {
    hide TableAt;
    hide DiffOf;
    hide Represents;
    assert Made(vs[i]) && Made(vs[j]);
    RootIsZero(vs[i].file, vs[i].sheet);
    RootIsZero(vs[j].file, vs[j].sheet);
    if i < j {
      ChainStep(vs, j);
      ChainStable(vs, i, j - 1, p);
    }
  }

  // One more version: a chain goes on exactly when the new version was made of the last one.
  lemma {:induction false} ChainMore(vs: seq<Version>, v: Version)
    requires vs != [] && Made(v)
    ensures Chain(vs + [v]) <==> Chain(vs) && v.base == Some(vs[|vs| - 1].file)
  {
    hide Made;
    var ws := vs + [v];
    if Chain(ws) {
      assert forall i | 0 <= i < |vs| :: ws[i] == vs[i];
      assert ws[|vs|] == v && ws[|vs| - 1] == vs[|vs| - 1];
    }
  }

  lemma ChainOne(v: Version)
    requires Made(v)
    ensures Chain([v])
  {
  }

  // A diff towards `t` is a diff towards the numbered tree it holds.
  lemma {:induction false} ErasedRepresents(last: bytes, tl: Value, t: Value, v: bytes, tr: Value)
    requires DiffOf(last, tl, t, v, tr)
    ensures DiffOf(last, tl, tr, v, tr) && Represents(v, tr) && Erase(tr) == Erase(t)
  {
    hide Represents;
    hide TableAt;
    hide FileShape;
    hide IsNew;
    hide Before;
    hide TableCount;
    hide IndexEntry;
    BeforeSame(tr, t);
  }

  lemma {:induction false} BeforeSame(t: Value, u: Value)
    requires Erase(t) == Erase(u)
    ensures forall p, q :: Before(t, p, q) <==> Before(u, p, q)
  {
    NumberSame(t, u, 0);
    hide TableAt;
    hide Number;
  }

  lemma {:induction false} DumpEnds(v: bytes, t: Value)
    requires IsDumpOf(v, t)
    ensures EndsInNul(v)
  {
    var tables, pool :| DumpFile(v, t, tables, pool);
  }

  // A diff of `last`, filed under a unique string.
  lemma {:induction false} MadeDiff(last: bytes, tl: Value, t: Value, d: bytes, tr: Value, suffix: bytes)
    requires Represents(last, tl) && DiffOf(last, tl, t, d, tr)
    ensures Made(Version(d + suffix, tr, Some(last))) && Erase(tr) == Erase(t)
    ensures DiffOf(last, tl, t, d + suffix, tr)
  {
    ErasedRepresents(last, tl, t, d, tr);
    DiffOfSuffix(last, tl, tr, d, tr, suffix);
    DiffOfSuffix(last, tl, t, d, tr, suffix);
    RepresentsSuffix(d, suffix, tr);
    hide Represents;
    hide DiffOf;
  }

  lemma {:induction false} MadeDump(v: bytes, t: Value, suffix: bytes)
    requires IsDumpOf(v, t)
    ensures Made(Version(v + suffix, Number(t, 0), None))
  {
    DumpRepresents(v, t);
    RepresentsSuffix(v, suffix, Number(t, 0));
  }

  // A string that was made unique with a number up to `n`.
  ghost predicate Numbered(s: bytes, n: nat) {
    exists v, i :: EndsInNul(v) && 1 <= i <= n && s == v + Decimal(i)
  }

  lemma NumberedMore(s: bytes, m: nat, n: nat)
    requires Numbered(s, m) && m <= n
    ensures Numbered(s, n)
  {
    var v, i :| EndsInNul(v) && 1 <= i <= m && s == v + Decimal(i);
  }

  // The diff of the dump `sheet` of `t` against `last`, which holds `tl`, does not fit 32-bit offsets.
  ghost predicate TooLong(last: bytes, tl: Value, sheet: bytes, t: Value) {
    8 <= |last| && 8 <= |sheet| && NewSize(sheet, Unpack(last, 4) as nat + |Fresh(tl, t)|) >= WORD
  }

  // ----- The builder -----

  // Between the two halves of `new` and `update` the datasheet service is called, and anything may happen.
  class Builder {
    var dataset: map<string, bytes>               // the current version of each sheet
    var cache: set<bytes>                         // the versions that are still referenced
    var uniqueId: nat
    ghost var history: map<string, seq<Version>>  // the versions each sheet had, oldest first

    constructor ()
      ensures Valid() && dataset == map[] && cache == {} && history == map[] && uniqueId == 0
    {
      dataset, cache, uniqueId, history := map[], {}, 0, map[];
    }

    ghost predicate Valid()
      reads this
    {
      && dataset.Keys == history.Keys
      && (forall name | name in dataset :: Current(history[name], dataset[name]))
      && (forall s | s in cache :: Numbered(s, uniqueId))
      && (forall name | name in dataset :: Numbered(dataset[name], uniqueId))
    }

    // A version is filed under a string no other version has.
    method UniqueString(v: bytes) returns (s: bytes)
      requires Valid() && EndsInNul(v)
      modifies this`uniqueId
      ensures Valid() && uniqueId == old(uniqueId) + 1
      ensures s == v + Decimal(uniqueId) && Numbered(s, uniqueId) && s !in cache && s !in dataset.Values
    {
      hide Current;
      uniqueId := uniqueId + 1;
      s := v + Decimal(uniqueId);
      assert Numbered(s, uniqueId);
      forall c | c in cache || c in dataset.Values
        ensures Numbered(c, uniqueId) && c != s
      {
        var w, i :| EndsInNul(w) && 1 <= i <= old(uniqueId) && c == w + Decimal(i);
        UniqueStrings(v, w, uniqueId, i);
      }
    }

    // `builder.new` up to its call: `sheet` is the tree `t`, compiled.
    method BeginNew(name: string, sheet: bytes, ghost t: Value) returns (ok: bool, file: bytes, ghost v: Version)
      requires Valid() && IsDumpOf(sheet, t)
      modifies this`uniqueId
      ensures Valid()
      ensures ok <==> name !in dataset
      ensures ok ==>
        && Numbered(file, uniqueId) && file !in cache && file !in dataset.Values
        && v == Version(file, Number(t, 0), None) && Made(v)
        && uniqueId == old(uniqueId) + 1 && file == sheet + Decimal(uniqueId)
    {
      hide Current;
      hide Made;
      file, v := [], Version([], t, None);
      ok := name !in dataset;
      if !ok {
        return;
      }
      DumpEnds(sheet, t);
      file := UniqueString(sheet);
      MadeDump(sheet, t, Decimal(uniqueId));
      v := Version(file, Number(t, 0), None);
    }

    // And after it. Another `new` of the name may have come between.
    method CommitNew(name: string, file: bytes, ghost v: Version)
      requires Valid() && Numbered(file, uniqueId) && Made(v) && v.file == file && v.base == None
      modifies this
      ensures Valid() && Filed(name, file, v)
      ensures Chain(history[name]) <==> name !in old(dataset)
      ensures cache == old(cache) + {file} && dataset == old(dataset)[name := file]
      ensures history == old(history)[name := history[name]] && uniqueId == old(uniqueId)
      ensures history[name] == (if name in old(history) then old(history)[name] else []) + [v]
    {
      hide Made;
      hide Chain;
      hide Current;
      ghost var vs := if name in history then history[name] else [];
      if name in dataset {
        CurrentParts(vs, dataset[name]);
        ChainMore(vs, v);
      } else {
        ChainOne(v);
        assert vs + [v] == [v];
      }
      cache := cache + {file};
      File(name, file, v, vs);
    }

    // `builder.update` up to its call: the new version is a diff of the one that is current now.
    method BeginUpdate(name: string, sheet: bytes, ghost t: Value)
      returns (ok: bool, last: bytes, file: bytes, ghost v: Version)
      requires Valid() && IsDumpOf(sheet, t)
      modifies this`uniqueId
      ensures Valid() && uniqueId >= old(uniqueId)
      ensures name in dataset ==> name in history && history[name] != []
      ensures ok <==> name in dataset && !TooLong(dataset[name], history[name][|history[name]| - 1].sheet, sheet, t)
      ensures ok ==>
        && name in dataset && last == dataset[name] && Numbered(file, uniqueId) && file !in cache
             && file !in dataset.Values
        && Made(v) && v.file == file && v.base == Some(last) && Erase(v.sheet) == Erase(t)
        && DiffOf(last, history[name][|history[name]| - 1].sheet, t, file, v.sheet)
    {
      hide *;
      last, file, v := [], [], Version([], t, None);
      if name !in dataset {
        ok := false;
        return;
      }
      ghost var tl := CurrentSheet(name);
      last := dataset[name];
      var d, tr := Diff(last, sheet, tl, t);
      TooLongIs(last, tl, sheet, t);
      if d.Overflow? {
        ok := false;
        return;
      }
      file := UniqueString(d.value);
      MadeDiff(last, tl, t, d.value, tr, Decimal(uniqueId));
      v := Version(file, tr, Some(last));
      ok := true;
    }

    // And after it: `last` is what was current before the call. It must be cached still. The history stays
    // a chain exactly when `last` is current still.
    method CommitUpdate(name: string, last: bytes, file: bytes, ghost v: Version) returns (ok: bool)
      requires Valid() && name in dataset
      requires Numbered(file, uniqueId) && file != last && Made(v) && v.file == file && v.base == Some(last)
      modifies this
      ensures Valid() && name in dataset && cache == old(cache) + {file} && uniqueId == old(uniqueId)
      ensures ok <==> last in old(cache)
      ensures !ok ==> dataset == old(dataset) && history == old(history)
      ensures ok ==>
        && Filed(name, file, v)
        && dataset == old(dataset)[name := file] && history == old(history)[name := old(history)[name] + [v]]
        && (Chain(history[name]) <==> old(Chain(history[name])) && old(dataset)[name] == last)
    {
      hide Made;
      hide Chain;
      hide Current;
      cache := cache + {file};
      ok := last in cache;
      if ok {
        CurrentParts(history[name], dataset[name]);
        ChainMore(history[name], v);
        File(name, file, v, history[name]);
      }
    }

    // The version is the current one of its sheet.
    ghost predicate Filed(name: string, file: bytes, v: Version)
      reads this
    {
      name in dataset && dataset[name] == file && name in history && history[name] != []
      && history[name][|history[name]| - 1] == v
    }

    // dataset[name] = file
    method File(name: string, file: bytes, ghost v: Version, ghost vs: seq<Version>)
      requires Valid() && Numbered(file, uniqueId) && Made(v) && v.file == file
      requires vs == if name in history then history[name] else []
      modifies this`dataset, this`history
      ensures Valid() && Filed(name, file, v)
      ensures dataset == old(dataset)[name := file] && history == old(history)[name := vs + [v]]
    {
      hide Made;
      hide Numbered;
      if name in dataset {
        CurrentParts(vs, dataset[name]);
      }
      CurrentMore(vs, v);
      hide Current;
      dataset, history := dataset[name := file], history[name := vs + [v]];
    }

    lemma {:induction false} CurrentSheet(name: string) returns (tl: Value)
      requires Valid() && name in dataset
      ensures name in history && history[name] != [] && tl == history[name][|history[name]| - 1].sheet
      ensures Represents(dataset[name], tl)
    {
      hide Current;
      hide Made;
      CurrentParts(history[name], dataset[name]);
      MadeParts(history[name][|history[name]| - 1]);
      tl := history[name][|history[name]| - 1].sheet;
    }

    // `monitor`: a version nobody refers to any more leaves the cache.
    method Collect(s: bytes)
      requires Valid()
      modifies this`cache
      ensures Valid() && cache == old(cache) - {s}
    {
      hide Current;
      hide Numbered;
      cache := cache - {s};
    }
  }

  // `file` is the last of the versions `vs`.
  ghost predicate Current(vs: seq<Version>, file: bytes) {
    vs != [] && vs[|vs| - 1].file == file && forall i | 0 <= i < |vs| :: Made(vs[i])
  }

  lemma CurrentParts(vs: seq<Version>, file: bytes)
    requires Current(vs, file)
    ensures vs != [] && vs[|vs| - 1].file == file && Made(vs[|vs| - 1])
    ensures forall i | 0 <= i < |vs| :: Made(vs[i])
  {
    hide Made;
  }

  lemma CurrentMore(vs: seq<Version>, v: Version)
    requires Made(v) && forall i | 0 <= i < |vs| :: Made(vs[i])
    ensures Current(vs + [v], v.file)
  {
    hide Made;
  }

  lemma TooLongIs(last: bytes, tl: Value, sheet: bytes, t: Value)
    requires 8 <= |last| && 8 <= |sheet|
    ensures TooLong(last, tl, sheet, t) <==> NewSize(sheet, Unpack(last, 4) as nat + |Fresh(tl, t)|) >= WORD
  {
  }

  // ----- Two updates at once -----

  const LEAF: Value := Table(0, [], [])
  const ONE: Value := Table(0, [LEAF], [[97]])            // { a = {} }
  const TWO: Value := Table(0, [LEAF, LEAF], [[98], [97]])  // { b = {}, a = {} }
  const PATH_A: Path := [Name([97])]
  const PATH_B: Path := [Name([98])]

  lemma LeafTables(x: Value)
    requires Erase(x) == Erase(LEAF)
    ensures x.Table? && x.items == [] && x.keys == []
  {
    assert EraseUpTo(x.items, |x.items|) == [];
  }

  lemma LeafSubs(x: Value)
    requires x.Table? && x.items == [] && x.keys == []
    ensures forall q: Path | q != [] :: Sub(x, q).None?
  {
    forall q: Path | q != []
      ensures Sub(x, q).None?
    {
      assert Lookup(x, q[0]).None?;
    }
  }

  lemma OneTables(x: Value)
    requires Erase(x) == Erase(ONE)
    ensures TableAt(x, []).Some? && TableAt(x, PATH_A).Some?
    ensures forall p | TableAt(x, p).Some? :: p == [] || p == PATH_A
  {
    assert |x.items| == 1 && x.keys == [[97]] && Erase(x).items[0] == Erase(x.items[0])
        && Erase(ONE).items[0] == Erase(LEAF);
    LeafTables(x.items[0]);
    LeafSubs(x.items[0]);
    assert Sub(x, PATH_A) == Sub(x.items[0], PATH_A[1..]);
    forall p | TableAt(x, p).Some? && p != []
      ensures p == PATH_A
    {
      assert Lookup(x, p[0]).Some?;
      assert p[0] == Name([97]);
      assert Sub(x, p) == Sub(x.items[0], p[1..]);
      assert p == [p[0]] + p[1..];
    }
  }

  lemma TwoItems(x: Value)
    requires Erase(x) == Erase(TWO)
    ensures x.Table? && |x.items| == 2 && x.keys == [[98], [97]] && x.items[0].Table? && x.items[1].Table?
  {
    assert Erase(x).items[0] == Erase(x.items[0]) && Erase(TWO).items[0] == Erase(LEAF);
    assert Erase(x).items[1] == Erase(x.items[1]) && Erase(TWO).items[1] == Erase(LEAF);
    LeafTables(x.items[0]);
    LeafTables(x.items[1]);
  }

  lemma ItemTable(x: Value, k: Key, y: Value)
    requires Lookup(x, k) == Some(y) && y.Table?
    ensures TableAt(x, [k]) == Some(y.id)
  {
    hide Lookup;
    assert [k][1..] == [];
    assert Sub(x, [k]) == Sub(y, []);
  }

  lemma TwoTables(x: Value)
    requires Erase(x) == Erase(TWO)
    ensures x.Table? && |x.items| == 2 && x.items[0].Table? && x.items[1].Table?
    ensures TableAt(x, PATH_A) == Some(x.items[1].id) && TableAt(x, PATH_B) == Some(x.items[0].id)
  {
    TwoItems(x);
    hide Erase;
    hide TableAt;
    assert FindKey([[98], [97]], [98]) == 0 && FindKey([[98], [97]], [97]) == 1;
    ItemTable(x, Name([97]), x.items[1]);
    ItemTable(x, Name([98]), x.items[0]);
  }

  // The number of a table is below the table count.
  lemma InTable(v: bytes, x: Value, p: Path)
    requires Represents(v, x) && TableAt(x, p).Some?
    ensures FileShape(v) && TableAt(x, p).value < TableCount(v)
  {
    hide RepTable;
    hide TableAt;
    hide FileDoc;
    SubRep(FileDoc(v), x, p);
    SubAt(x, p);
    RepSize(FileDoc(v), Sub(x, p).value);
    FileTable(v, TableAt(x, p).value);
  }

  // Against one version, the only new table of the first sheet gets the first free number, and the second
  // new table of the other a later one.
  lemma NumbersDiffer(last: bytes, tl: Value, v: bytes, x: Value, w: bytes, y: Value)
    requires Represents(last, tl) && Erase(tl) == Erase(LEAF)
    requires DiffOf(last, tl, ONE, v, x) && DiffOf(last, tl, TWO, w, y)
    ensures TableAt(x, PATH_A).Some? && TableAt(y, PATH_A).Some?
    ensures TableAt(x, PATH_A).value < TableAt(y, PATH_A).value
  {
    hide Represents;
    hide TableAt;
    hide FileShape;
    hide Before;
    hide IsNew;
    hide TableCount;
    hide IndexEntry;
    OneTables(x);
    TwoTables(y);
    LeafPaths(tl);
    TwoOrder();
    RootIsZero(last, tl);
    RootIsZero(v, x);
    NewParts(tl, x, PATH_A);
    NewParts(tl, y, PATH_A);
    NewParts(tl, y, PATH_B);
    InTable(last, tl, []);
    InTable(v, x, PATH_A);
    var c := TableCount(last);
    assert c < TableCount(v) ==> exists p :: TableAt(x, p) == Some(c);
  }

  lemma NewParts(tl: Value, tr: Value, p: Path)
    ensures IsNew(tl, tr, p) <==> TableAt(tr, p).Some? && TableAt(tl, p).None?
  {
  }

  lemma LeafPaths(tl: Value)
    requires Erase(tl) == Erase(LEAF)
    ensures TableAt(tl, PATH_A).None? && TableAt(tl, PATH_B).None?
  {
    LeafTables(tl);
  }

  lemma TwoOrder()
    ensures Before(TWO, PATH_B, PATH_A)
  {
    NumberErases(TWO, 0);
    TwoTables(Number(TWO, 0));
    assert Number(TWO, 0).items[0] == Number(LEAF, 1 + TablesUpTo(TWO.items, 0));
    assert Number(TWO, 0).items[1] == Number(LEAF, 1 + TablesUpTo(TWO.items, 1));
    assert TablesUpTo(TWO.items, 1) == TablesUpTo(TWO.items, 0) + Tables(LEAF);
    assert Tables(LEAF) >= 1;
  }

  lemma Leaf()
    ensures Plain(LEAF) && LEAF.Table? && Tables(LEAF) == 1 && Blobs(LEAF) == 8
    ensures forall ss :: Strings(LEAF, ss) == ss
  {
  }

  // Sheets whose tables are leaves.
  lemma {:induction false} LeavesUpTo(items: seq<Value>, i: nat)
    requires i <= |items| && forall k | 0 <= k < |items| :: items[k] == LEAF
    ensures TablesUpTo(items, i) == i && BlobsUpTo(items, i) == 8 * i
  {
    hide Tables;
    hide Blobs;
    Leaf();
    if i > 0 {
      LeavesUpTo(items, i - 1);
    }
  }

  lemma OneSheet()
    ensures Plain(ONE) && ONE.Table? && Tables(ONE) == 2 && Blobs(ONE) == 28
    ensures Strings(ONE, []) == [[97]]
  {
    Leaf();
    LeavesUpTo([LEAF], 1);
    hide TablesUpTo;
    hide BlobsUpTo;
    OneStrings();
    hide StringsUpTo;
  }

  lemma TwoSheet()
    ensures Plain(TWO) && TWO.Table? && Tables(TWO) == 3 && Blobs(TWO) == 44
    ensures Strings(TWO, []) == [[98], [97]]
  {
    Leaf();
    LeavesUpTo([LEAF, LEAF], 2);
    hide TablesUpTo;
    hide BlobsUpTo;
    TwoStrings();
    hide StringsUpTo;
  }

  lemma OneStrings()
    ensures StringsUpTo([LEAF], [[97]], 1, []) == [[97]]
  {
    Leaf();
    hide Strings;
    assert StringsUpTo([LEAF], [[97]], 0, []) == [];
  }

  lemma TwoStrings()
    ensures StringsUpTo([LEAF, LEAF], [[98], [97]], 2, []) == [[98], [97]]
  {
    Leaf();
    hide Strings;
    assert StringsUpTo([LEAF, LEAF], [[98], [97]], 0, []) == [];
    assert StringsUpTo([LEAF, LEAF], [[98], [97]], 1, []) == [[98]];
  }

  lemma SmallSheets()
    ensures Plain(LEAF) && Plain(ONE) && Plain(TWO) && LEAF.Table? && ONE.Table? && TWO.Table?
    ensures Tables(LEAF) == 1 && Tables(ONE) == 2 && Tables(TWO) == 3
    ensures Blobs(LEAF) == 8 && Blobs(ONE) == 28 && Blobs(TWO) == 44
    ensures Strings(LEAF, []) == [] && Strings(ONE, []) == [[97]] && Strings(TWO, []) == [[98], [97]]
  {
    hide *;
    Leaf();
    OneSheet();
    TwoSheet();
  }

  lemma SmallPools()
    ensures Placed([]) && Placed([[97]]) && Placed([[98], [97]])
    ensures |JoinNul([])| == 0 && |JoinNul([[97]])| == 1 && |JoinNul([[98], [97]])| == 3
  {
    var ss: seq<bytes> := [[98], [97]];
    assert ss[..1] == [[98]] && |PoolOf([[98]])| == 2;
    assert ss[..0] == [];
  }

  lemma {:induction false} AtMost(a: set<nat>, n: nat)
    requires forall k | k in a :: k < n
    ensures |a| <= n
    decreases n
  {
    if n > 0 {
      AtMost(a - {n - 1}, n - 1);
      assert |a| <= |a - {n - 1}| + 1;
    } else {
      assert forall k :: k !in a;
    }
  }

  lemma DumpCount(sheet: bytes, t: Value)
    requires IsDumpOf(sheet, t)
    ensures FileShape(sheet) && 8 <= |sheet| && Unpack(sheet, 4) as int == Tables(t)
      && Unpack(sheet, 0) as int <= |sheet|
  {
    var tables, pool :| DumpFile(sheet, t, tables, pool);
    DumpFileIs(sheet, t, tables, pool);
    DumpRepresents(sheet, t);
    DocumentShape(sheet, Number(t, 0));
    FileIsReads(sheet, Offsets(tables), tables, pool);
  }

  lemma NotTooLong(file: bytes, x: Value, sheet: bytes, t: Value)
    requires Represents(file, x) && IsDumpOf(sheet, t) && |file| + |sheet| < WORD
    ensures !TooLong(file, x, sheet, t)
  {
    hide Represents;
    hide IsDumpOf;
    hide IsFresh;
    DocumentShape(file, x);
    DumpCount(sheet, t);
    AtMost(Fresh(x, t), Tables(t));
  }

  lemma DecimalOne()
    ensures |Decimal(1)| == 1
  {
  }

  // A sheet of one table is made.
  method MakeLeaf(b: Builder, leaf: bytes) returns (file: bytes, ghost v: Version)
    requires b.Valid() && b.dataset == map[] && b.history == map[] && b.uniqueId == 0 && IsDumpOf(leaf, LEAF)
    modifies b
    ensures b.Valid() && b.dataset == map["s" := file] && b.history == map["s" := [v]] && file in b.cache
    ensures Represents(file, v.sheet) && Erase(v.sheet) == Erase(LEAF) && |file| == |leaf| + 1 && Chain([v])
  {
    hide *;
    var ok;
    ok, file, v := b.BeginNew("s", leaf, LEAF);
    DecimalOne();
    MadeParts(v);
    NumberErases(LEAF, 0);
    b.CommitNew("s", file, v);
    assert b.history["s"] == [v];
  }

  // A sheet is made, two updates read it before either is done, and both are done: the table at a is in
  // all later versions, but its number changes, and the history is no chain.
  method InterleavedUpdates() returns (ghost before: seq<Version>, ghost after: seq<Version>)
    ensures |before| == 2 && Chain(before) && |after| == 3 && before == after[..2] && !Chain(after)
    ensures Erase(after[1].sheet) == Erase(ONE) && Erase(after[2].sheet) == Erase(TWO)
    ensures TableAt(after[1].sheet, PATH_A).Some? && TableAt(after[2].sheet, PATH_A).Some?
    ensures TableAt(after[1].sheet, PATH_A) != TableAt(after[2].sheet, PATH_A)
  {
    hide *;
    SmallSheets();
    SmallPools();
    Limits();
    var leaf: Result<bytes> := Dump(LEAF);
    var one: Result<bytes> := Dump(ONE);
    var two: Result<bytes> := Dump(TWO);
    var b := new Builder();
    var file, v := MakeLeaf(b, leaf.value);
    ghost var x, y;
    before, after, x, y := Race(b, one.value, two.value, file, v);
    NumbersDiffer(file, v.sheet, x.file, x.sheet, y.file, y.sheet);
  }

  // The same for a new sheet: both calls of `new` find the name unused, and its history is no chain.
  method InterleavedNews() returns (ghost after: seq<Version>)
    ensures |after| == 2 && Made(after[0]) && Made(after[1]) && !Chain(after)
  {
    hide *;
    SmallSheets();
    SmallPools();
    Limits();
    var leaf: Result<bytes> := Dump(LEAF);
    var b := new Builder();
    var ok1, file1, v1 := b.BeginNew("s", leaf.value, LEAF);
    ghost var n := b.uniqueId;
    var ok2, file2, v2 := b.BeginNew("s", leaf.value, LEAF);
    NumberedMore(file1, n, b.uniqueId);
    b.CommitNew("s", file1, v1);
    assert b.history["s"] == [v1];
    b.CommitNew("s", file2, v2);
    after := b.history["s"];
    assert after == [v1, v2];
  }

  method Race(b: Builder, one: bytes, two: bytes, file: bytes, ghost v: Version)
    returns (ghost before: seq<Version>, ghost after: seq<Version>, ghost x: Version, ghost y: Version)
    requires b.Valid() && b.dataset == map["s" := file] && b.history == map["s" := [v]] && file in b.cache
    requires IsDumpOf(one, ONE) && IsDumpOf(two, TWO) && Represents(file, v.sheet) && Chain([v])
    requires |file| + |one| < WORD && |file| + |two| < WORD
    modifies b
    ensures before == [v, x] && after == [v, x, y] && Chain(before) && !Chain(after)
    ensures DiffOf(file, v.sheet, ONE, x.file, x.sheet) && DiffOf(file, v.sheet, TWO, y.file, y.sheet)
    ensures Erase(x.sheet) == Erase(ONE) && Erase(y.sheet) == Erase(TWO)
  {
    hide *;
    NotTooLong(file, v.sheet, one, ONE);
    NotTooLong(file, v.sheet, two, TWO);
    var ok1, last1, file1, v1 := b.BeginUpdate("s", one, ONE);
    ghost var n := b.uniqueId;
    var ok2, last2, file2, v2 := b.BeginUpdate("s", two, TWO);
    NumberedMore(file1, n, b.uniqueId);
    var ok := b.CommitUpdate("s", last1, file1, v1);
    before := b.history["s"];
    assert before == [v, v1];
    ok := b.CommitUpdate("s", last2, file2, v2);
    after := b.history["s"];
    assert after == [v, v1, v2];
    x, y := v1, v2;
  }
}
