/**
 The service that shares tables: which versions of which files are open, and who uses them. A version
 is closed when a newer one is loaded and nobody uses it any more.
 */
module ShareTable {
  import opened Words
  import opened Chains

  // What is known of a version that was queried. `file` and `matrix` are the file and the version.
  datatype Ref = Ref(file: nat, count: nat, matrix: nat, refs: set<nat>)

  // Versions are numbered as they are made. Their addresses are those of memory, and may be used again
  // for another version once the first is closed.
  datatype State = State(
    matrix: map<nat, Ref>,         // by address
    files: map<nat, nat>,          // the current version of each file
    clients: map<nat, seq<nat>>,   // the addresses each client has queried
    address: map<nat, nat>,        // of each version
    open: set<nat>,                // the versions not closed
    closed: seq<nat>,              // the versions closed, in order
    next: nat)

  ghost predicate RefOk(s: State, p: nat)
    requires p in s.matrix
  {
    var r := s.matrix[p];
    && r.count == |r.refs|
    && r.matrix in s.open && r.matrix in s.address && s.address[r.matrix] == p
    && (r.count == 0 ==> r.file in s.files && s.files[r.file] == r.matrix)
    && (forall f | f in s.files && s.files[f] == r.matrix :: f == r.file)
  }

  // A version is open exactly while it is current or used.
  ghost predicate Needed(s: State, m: nat) {
    (exists f :: f in s.files && s.files[f] == m)
        || (exists p :: p in s.matrix && s.matrix[p].matrix == m && s.matrix[p].count > 0)
  }

  ghost predicate Versions(s: State) {
    && (forall m :: m in s.open <==> Needed(s, m))
    && (forall m | m in s.open :: m in s.address && m < s.next)
    && (forall m, n | m in s.open && n in s.open && m != n :: s.address[m] != s.address[n])
    && (forall f, g | f in s.files && g in s.files && f != g :: s.files[f] != s.files[g])
  }

  ghost predicate Once(s: State) {
    && Distinct(s.closed)
    && (forall m | m in s.closed :: m !in s.open && m < s.next)
  }

  // Clients and references are inverse to each other.
  ghost predicate Uses(s: State, c: nat, p: nat) {
    p in s.matrix && c in s.matrix[p].refs
  }

  ghost predicate Listed(s: State, c: nat, p: nat) {
    c in s.clients && p in s.clients[c]
  }

  ghost predicate Clients(s: State) {
    && (forall c, p :: Listed(s, c, p) <==> Uses(s, c, p))
    && (forall c | c in s.clients :: Distinct(s.clients[c]))
  }

  ghost predicate Inv(s: State) {
    && (forall p | p in s.matrix :: RefOk(s, p))
    && Versions(s) && Once(s) && Clients(s)
  }

  // ----- Steps -----

  // close_matrix
  function Retired(s: State, m: nat): State
    requires m in s.address
  {
    var p := s.address[m];
    if p !in s.matrix || s.matrix[p].count == 0
    then s.(matrix := s.matrix - {p}, open := s.open - {m}, closed := s.closed + [m])
    else s
  }

  function BeforeLoad(s: State, file: nat): State {
    if file in s.files && s.files[file] in s.address then Retired(s, s.files[file]) else s
  }

  // A load that succeeds; the new version is at address `p`.
  function Loaded(s: State, file: nat, p: nat): State {
    var t := BeforeLoad(s, file);
    t.(files := t.files[file := t.next], address := t.address[t.next := p], open := t.open + {t.next},
        next := t.next + 1)
  }

  // query_file
  function Queried(s: State, c: nat, file: nat): State
    requires file in s.files && s.files[file] in s.address
  {
    var m := s.files[file];
    var p := s.address[m];
    var r := if p in s.matrix then s.matrix[p] else Ref(file, 0, m, {});
    if c in r.refs then s.(matrix := s.matrix[p := r])
    else s.(matrix := s.matrix[p := r.(refs := r.refs + {c}, count := r.count + 1)],
            clients := s.clients[c := (if c in s.clients then s.clients[c] else []) + [p]])
  }

  // One turn of the loop of sharetable.close.
  function Released(s: State, c: nat, p: nat): State
    requires p in s.matrix ==> s.matrix[p].count == |s.matrix[p].refs|
  {
    if p !in s.matrix || c !in s.matrix[p].refs then s
    else
      var r := s.matrix[p].(refs := s.matrix[p].refs - {c}, count := s.matrix[p].count - 1);
      if r.count == 0 && (r.file !in s.files || s.files[r.file] != r.matrix)
      then s.(matrix := s.matrix - {p}, open := s.open - {r.matrix}, closed := s.closed + [r.matrix])
      else s.(matrix := s.matrix[p := r])
  }

  // ----- Loading -----

  lemma {:induction false} CurrentOpen(s: State, file: nat)
    requires Inv(s) && file in s.files
    ensures s.files[file] in s.open && s.files[file] in s.address && s.files[file] < s.next
    ensures var p := s.address[s.files[file]];
      p in s.matrix ==> s.matrix[p].matrix == s.files[file] && s.matrix[p].file == file
  {
    var m := s.files[file];
    assert Needed(s, m);
    var p := s.address[m];
    if p in s.matrix {
      assert RefOk(s, p);
    }
  }

  // The address of a new version is not that of an open one.
  ghost predicate FreshAddress(s: State, file: nat, p: nat) {
    forall n | n in BeforeLoad(s, file).open && n in s.address :: s.address[n] != p
  }

  lemma OpenNeeded(s: State, m: nat)
    requires Inv(s)
    ensures m in s.open <==> Needed(s, m)
  {
  }

  // After a load, the versions that are open are needed ...
  lemma {:induction false} LoadedOpen(s: State, file: nat, p: nat, m: nat)
    requires Inv(s) && m in Loaded(s, file, p).open
    ensures Needed(Loaded(s, file, p), m)
  {
    hide Clients;
    hide Once;
    hide Versions;
    hide RefOk;
    var t := Loaded(s, file, p);
    if file in s.files {
      CurrentOpen(s, file);
    }
    OpenNeeded(s, m);
    if m == s.next {
      assert t.files[file] == m;
    } else if f :| f in s.files && s.files[f] == m && f != file {
      assert t.files[f] == m;
    } else if f :| f in s.files && s.files[f] == m {
      assert s.address[m] in t.matrix && t.matrix[s.address[m]].count > 0;
    } else {
      var q :| q in s.matrix && s.matrix[q].matrix == m && s.matrix[q].count > 0;
      assert q in t.matrix;
    }
  }

  // ... and those that are needed are open.
  lemma {:induction false} LoadedNeeded(s: State, file: nat, p: nat, m: nat)
    requires Inv(s) && Needed(Loaded(s, file, p), m)
    ensures m in Loaded(s, file, p).open
  {
    hide Clients;
    hide Once;
    var t := Loaded(s, file, p);
    if file in s.files {
      CurrentOpen(s, file);
    }
    if f :| f in t.files && t.files[f] == m {
      if f != file {
        CurrentOpen(s, f);
      }
    } else {
      var q :| q in t.matrix && t.matrix[q].matrix == m && t.matrix[q].count > 0;
      assert RefOk(s, q);
    }
  }

  lemma {:induction false} LoadedRefs(s: State, file: nat, p: nat)
    requires Inv(s)
    ensures forall q | q in Loaded(s, file, p).matrix :: RefOk(Loaded(s, file, p), q)
  {
    hide Clients;
    hide Once;
    hide Needed;
    var t := Loaded(s, file, p);
    if file in s.files {
      CurrentOpen(s, file);
    }
    forall q | q in t.matrix
      ensures RefOk(t, q)
    {
      assert RefOk(s, q);
    }
  }

  lemma {:induction false} LoadedVersions(s: State, file: nat, p: nat)
    requires Inv(s) && FreshAddress(s, file, p)
    ensures Versions(Loaded(s, file, p))
  {
    var t := Loaded(s, file, p);
    hide Needed;
    hide Clients;
    hide RefOk;
    hide Once;
    if file in s.files {
      CurrentOpen(s, file);
    }
    forall m
      ensures m in t.open <==> Needed(t, m)
    {
      if m in t.open {
        LoadedOpen(s, file, p, m);
      }
      if Needed(t, m) {
        LoadedNeeded(s, file, p, m);
      }
    }
    forall f | f in s.files
      ensures s.files[f] < s.next
    {
      CurrentOpen(s, f);
    }
  }

  lemma {:induction false} LoadedOnce(s: State, file: nat, p: nat)
    requires Inv(s)
    ensures Once(Loaded(s, file, p))
  {
    hide Needed;
    hide Clients;
    hide RefOk;
    if file in s.files {
      CurrentOpen(s, file);
      DistinctAppendTo(s.closed, s.files[file]);
    }
  }

  lemma DistinctAppendTo(s: seq<nat>, x: nat)
    requires Distinct(s)
    ensures x !in s ==> Distinct(s + [x])
  {
  }

  lemma {:induction false} LoadedClients(s: State, file: nat, p: nat)
    requires Inv(s)
    ensures Clients(Loaded(s, file, p))
  {
    var t := Loaded(s, file, p);
    forall c, q
      ensures Listed(t, c, q) <==> Uses(t, c, q)
    {
      assert Listed(s, c, q) <==> Uses(s, c, q);
      if q in s.matrix {
        assert RefOk(s, q);
      }
    }
  }

  // Loading a file keeps the invariant.
  lemma {:induction false} LoadedInv(s: State, file: nat, p: nat)
    requires Inv(s) && FreshAddress(s, file, p)
    ensures Inv(Loaded(s, file, p))
  {
    LoadedRefs(s, file, p);
    LoadedVersions(s, file, p);
    LoadedOnce(s, file, p);
    LoadedClients(s, file, p);
  }

  // The new version is the current one, and it is open. The version before it is closed exactly when nobody
  // uses it.
  lemma {:induction false} LoadedCurrent(s: State, file: nat, p: nat)
    requires Inv(s)
    ensures var t := Loaded(s, file, p);
      && t.files == s.files[file := s.next] && t.address == s.address[s.next := p] && s.next in t.open
      && t.closed == if file in s.files && !(exists c :: Uses(s, c, s.address[s.files[file]]))
                     then s.closed + [s.files[file]] else s.closed
  {
    if file in s.files {
      CurrentOpen(s, file);
      var q := s.address[s.files[file]];
      if q in s.matrix {
        assert RefOk(s, q);
        if s.matrix[q].count > 0 {
          var c :| c in s.matrix[q].refs;
          assert Uses(s, c, q);
        }
      }
    }
  }

  // A load that fails keeps it exactly when the file was not loaded before or its version is in use:
  // otherwise `files` goes on naming a closed version.
  lemma {:induction false} FailedLoad(s: State, file: nat)
    requires Inv(s)
    ensures Inv(BeforeLoad(s, file)) <==>
      file !in s.files || (s.address[s.files[file]] in s.matrix && s.matrix[s.address[s.files[file]]].count > 0)
  {
    if file in s.files {
      CurrentOpen(s, file);
      var m := s.files[file];
      if BeforeLoad(s, file) != s {
        assert m !in BeforeLoad(s, file).open;
        assert Needed(BeforeLoad(s, file), m);
      }
    }
  }

  const EMPTY: State := State(map[], map[], map[], map[], {}, [], 0)

  // A file is loaded, a load of it fails, and it is loaded again: the file names a closed version in
  // between, and the first version is closed twice.
  lemma {:induction false} ClosedTwice(file: nat, p: nat, q: nat)
    ensures var one := Loaded(EMPTY, file, p); var failed := BeforeLoad(one, file);
      var again := Loaded(failed, file, q);
      && Inv(EMPTY) && Inv(one) && !Inv(failed)
      && failed.files == map[file := 0] && failed.open == {}
      && again.closed == [0, 0]
  {
    var one := Loaded(EMPTY, file, p);
    var failed := BeforeLoad(one, file);
    assert FreshAddress(EMPTY, file, p);
    LoadedInv(EMPTY, file, p);
    assert one == State(map[], map[file := 0], map[], map[0 := p], {0}, [], 1);
    assert failed == one.(open := {}, closed := [0]);
    FailedLoad(one, file);
  }

  // ----- Querying -----

  lemma {:induction false} QueriedRefs(s: State, c: nat, file: nat)
    requires Inv(s) && file in s.files && s.files[file] in s.address
    ensures forall q | q in Queried(s, c, file).matrix :: RefOk(Queried(s, c, file), q)
  {
    var t := Queried(s, c, file);
    CurrentOpen(s, file);
    hide Clients;
    var p := s.address[s.files[file]];
    forall q | q in t.matrix
      ensures RefOk(t, q)
    {
      if q in s.matrix {
        assert RefOk(s, q);
      }
    }
  }

  lemma {:induction false} QueriedNeeded(s: State, c: nat, file: nat, m: nat)
    requires Inv(s) && file in s.files && s.files[file] in s.address
    ensures m in Queried(s, c, file).open <==> Needed(Queried(s, c, file), m)
  {
    hide Clients;
    hide Once;
    hide RefOk;
    hide Versions;
    var t := Queried(s, c, file);
    CurrentOpen(s, file);
    OpenNeeded(s, m);
    var p := s.address[s.files[file]];
    if q :| q in s.matrix && s.matrix[q].matrix == m && s.matrix[q].count > 0 {
      assert q in t.matrix && t.matrix[q].matrix == m && t.matrix[q].count > 0;
    }
    if q :| q in t.matrix && t.matrix[q].matrix == m && t.matrix[q].count > 0 && q != p {
      assert q in s.matrix;
    }
  }

  lemma {:induction false} QueriedVersions(s: State, c: nat, file: nat)
    requires Inv(s) && file in s.files && s.files[file] in s.address
    ensures Versions(Queried(s, c, file)) && Once(Queried(s, c, file))
  {
    hide Needed;
    hide Clients;
    hide RefOk;
    forall m
      ensures m in Queried(s, c, file).open <==> Needed(Queried(s, c, file), m)
    {
      QueriedNeeded(s, c, file, m);
    }
  }

  lemma {:induction false} QueriedClients(s: State, c: nat, file: nat)
    requires Inv(s) && file in s.files && s.files[file] in s.address
    ensures Clients(Queried(s, c, file))
  {
    var t := Queried(s, c, file);
    var p := s.address[s.files[file]];
    assert Listed(s, c, p) <==> Uses(s, c, p);
    if !Uses(s, c, p) && c in s.clients {
      DistinctAppend(s.clients[c], p);
    }
    forall d, q
      ensures Listed(t, d, q) <==> Uses(t, d, q)
    {
      assert Listed(s, d, q) <==> Uses(s, d, q);
    }
  }

  // A query keeps the invariant, and from then on the version is used by the client.
  lemma {:induction false} QueriedInv(s: State, c: nat, file: nat)
    requires Inv(s) && file in s.files && s.files[file] in s.address
    ensures Inv(Queried(s, c, file)) && Uses(Queried(s, c, file), c, s.address[s.files[file]])
  {
    QueriedRefs(s, c, file);
    QueriedVersions(s, c, file);
    QueriedClients(s, c, file);
  }

  // ----- A client is gone -----

  // Of the list of client `c`, the addresses `left` are still to be released.
  ghost predicate Leaving(s: State, c: nat, left: seq<nat>) {
    && (forall p | p in s.matrix :: RefOk(s, p))
    && Versions(s) && Once(s)
    && Distinct(left)
    && (forall p :: p in left <==> Uses(s, c, p))
    && (forall d, p | d != c :: Listed(s, d, p) <==> Uses(s, d, p))
    && (forall d | d in s.clients :: Distinct(s.clients[d]))
  }

  lemma {:induction false} ReleasedRefs(s: State, c: nat, p: nat)
    requires (forall q | q in s.matrix :: RefOk(s, q)) && p in s.matrix && c in s.matrix[p].refs
    ensures RefOk(s, p)
    ensures Versions(s) ==> forall q | q in Released(s, c, p).matrix :: RefOk(Released(s, c, p), q)
  {
    var t := Released(s, c, p);
    assert RefOk(s, p);
    if Versions(s) {
      hide Needed;
      forall q | q in t.matrix
        ensures RefOk(t, q)
      {
        assert RefOk(s, q);
      }
    }
  }

  lemma {:induction false} ReleasedNeeded(s: State, c: nat, p: nat, m: nat)
    requires (forall q | q in s.matrix :: RefOk(s, q)) && p in s.matrix && c in s.matrix[p].refs && RefOk(s, p)
    requires m in s.open <==> Needed(s, m)
    ensures m in Released(s, c, p).open <==> Needed(Released(s, c, p), m)
  {
    var t := Released(s, c, p);
    if q :| q in s.matrix && s.matrix[q].matrix == m && s.matrix[q].count > 0 && q != p {
      assert RefOk(s, q);
      assert q in t.matrix && t.matrix[q].matrix == m && t.matrix[q].count > 0;
    }
    if q :| q in t.matrix && t.matrix[q].matrix == m && t.matrix[q].count > 0 && q != p {
      assert q in s.matrix && RefOk(s, q);
    }
    if m == s.matrix[p].matrix && m in t.open && s.matrix[p].count > 1 {
      assert t.matrix[p].matrix == m && t.matrix[p].count > 0;
    }
  }

  lemma {:induction false} ReleasedVersions(s: State, c: nat, p: nat)
    requires (forall q | q in s.matrix :: RefOk(s, q)) && p in s.matrix && c in s.matrix[p].refs && RefOk(s, p)
    requires Versions(s)
    ensures Versions(Released(s, c, p))
  {
    hide Needed;
    forall m
      ensures m in Released(s, c, p).open <==> Needed(Released(s, c, p), m)
    {
      assert m in s.open <==> Needed(s, m);
      ReleasedNeeded(s, c, p, m);
    }
  }

  lemma {:induction false} ReleasedOnce(s: State, c: nat, p: nat)
    requires p in s.matrix && c in s.matrix[p].refs && RefOk(s, p) && Versions(s) && Once(s)
    ensures Once(Released(s, c, p))
  {
    hide Needed;
    DistinctAppendTo(s.closed, s.matrix[p].matrix);
  }

  // Nothing changes for other clients.
  ghost predicate OthersUse(s: State, t: State, c: nat) {
    forall d, p | d != c :: Uses(t, d, p) <==> Uses(s, d, p)
  }

  lemma {:induction false} ReleasedLeaving(s: State, c: nat, left: seq<nat>)
    requires Leaving(s, c, left) && left != []
    ensures left[0] in s.matrix ==> s.matrix[left[0]].count == |s.matrix[left[0]].refs|
    ensures Leaving(Released(s, c, left[0]), c, left[1..]) && OthersUse(s, Released(s, c, left[0]), c)
  {
    var p := left[0];
    assert Uses(s, c, p);
    ReleasedRefs(s, c, p);
    ReleasedVersions(s, c, p);
    ReleasedOnce(s, c, p);
    DistinctTail(left);
    var t := Released(s, c, p);
    hide RefOk;
    hide Versions;
    hide Once;
    forall q
      ensures q in left[1..] <==> Uses(t, c, q)
    {
      assert q in left <==> Uses(s, c, q);
    }
    forall d, q | d != c
      ensures Listed(t, d, q) <==> Uses(t, d, q)
    {
      assert Listed(s, d, q) <==> Uses(s, d, q);
      GoneUses(s, c, p, d, q);
    }
  }

  // A version that is closed had no other client.
  lemma {:induction false} GoneUses(s: State, c: nat, p: nat, d: nat, q: nat)
    requires p in s.matrix && c in s.matrix[p].refs && RefOk(s, p) && d != c
    ensures Uses(Released(s, c, p), d, q) <==> Uses(s, d, q)
  {
    var r := s.matrix[p].refs - {c};
    if |r| == 0 {
      assert r == {};
    }
  }

  lemma {:induction false} LeavingStart(s: State, c: nat)
    requires Inv(s) && c in s.clients
    ensures Leaving(s, c, s.clients[c])
  {
    hide RefOk;
    hide Versions;
    hide Once;
    forall p
      ensures p in s.clients[c] <==> Uses(s, c, p)
    {
      assert Listed(s, c, p) <==> Uses(s, c, p);
    }
  }

  lemma {:induction false} LeavingEnd(s: State, c: nat)
    requires Leaving(s, c, [])
    ensures Inv(s.(clients := s.clients - {c}))
  {
    var t := s.(clients := s.clients - {c});
    assert forall p | p in t.matrix :: RefOk(s, p) && RefOk(t, p);
    forall m
      ensures Needed(t, m) <==> Needed(s, m)
    {
    }
    hide RefOk;
    forall d, p
      ensures Listed(t, d, p) <==> Uses(t, d, p)
    {
      if d != c {
        assert Listed(s, d, p) <==> Uses(s, d, p);
      } else {
        assert p in [] <==> Uses(s, c, p);
      }
    }
  }

  // ----- The service -----

  class Service {
    var matrix: map<nat, Ref>
    var files: map<nat, nat>
    var clients: map<nat, seq<nat>>
    var address: map<nat, nat>     // what getptr gives
    ghost var open: set<nat>
    ghost var closed: seq<nat>
    var next: nat

    ghost function View(): State
      reads this
    {
      State(matrix, files, clients, address, open, closed, next)
    }

    constructor ()
      ensures Inv(View()) && files == map[] && open == {} && closed == []
    {
      matrix, files, clients, address, open, closed, next := map[], map[], map[], map[], {}, [], 0;
    }

    // close_matrix
    method CloseMatrix(m: nat)
      requires m in address
      modifies this`matrix, this`open, this`closed
      ensures View() == Retired(old(View()), m)
    {
      var p := address[m];
      if p !in matrix || matrix[p].count == 0 {
        matrix := matrix - {p};
        open, closed := open - {m}, closed + [m];
      }
    }

    // sharetable.loadfile, loadstring and loadtable. core.matrix may fail, or give a version at address `p`.
    method Load(file: nat, p: Option<nat>) returns (ok: bool)
      requires Inv(View()) && (p.Some? ==> FreshAddress(View(), file, p.value))
      modifies this
      ensures ok <==> p.Some?
      ensures ok ==> Inv(View()) && View() == Loaded(old(View()), file, p.value)
      ensures ok ==> next == old(next) + 1 && files == old(files)[file := old(next)] && old(next) in open
      ensures ok ==> address == old(address)[old(next) := p.value]
      ensures !ok ==> View() == BeforeLoad(old(View()), file)
      ensures !ok ==>
        (Inv(View()) <==>
            file !in old(files)
                || (old(address[files[file]]) in old(matrix) && old(matrix)[old(address[files[file]])].count > 0))
    {
      hide Inv;
      FailedLoad(View(), file);
      if p.Some? {
        LoadedInv(View(), file, p.value);
      }
      if file in files {
        CurrentOpen(View(), file);
        CloseMatrix(files[file]);
      }
      if p.None? {
        return false;
      }
      address := address[next := p.value];
      files := files[file := next];
      open, next := open + {next}, next + 1;
      ok := true;
    }

    // sharetable.query: the address of the current version of the file.
    method Query(source: nat, file: nat) returns (ptr: Option<nat>)
      requires Inv(View())
      modifies this`matrix, this`clients
      ensures Inv(View())
      ensures ptr.Some? <==> file in files
      ensures ptr.Some? ==>
        files[file] in address && ptr.value == address[files[file]] && files[file] in open
            && Uses(View(), source, ptr.value)
      ensures View() == if ptr.Some? then Queried(old(View()), source, file) else old(View())
    {
      hide Inv;
      if file !in files {
        return None;
      }
      CurrentOpen(View(), file);
      QueriedInv(View(), source, file);
      var m := files[file];
      var p := address[m];
      var ref := if p in matrix then matrix[p] else Ref(file, 0, m, {});
      if source !in ref.refs {
        ref := ref.(refs := ref.refs + {source});
        clients := clients[source := (if source in clients then clients[source] else []) + [p]];
        ref := ref.(count := ref.count + 1);
      }
      matrix := matrix[p := ref];
      ptr := Some(p);
    }

    // sharetable.close: the client is gone, and uses nothing.
    method Close(source: nat)
      requires Inv(View())
      modifies this`matrix, this`clients, this`open, this`closed
      ensures Inv(View()) && forall p :: !Uses(View(), source, p)
      ensures files == old(files) && source !in clients && OthersUse(old(View()), View(), source)
    {
      hide Inv;
      hide Leaving;
      hide RefOk;
      if source in clients {
        var list := clients[source];
        LeavingStart(View(), source);
        assert list[0..] == list;
        for i := 0 to |list|
          invariant Leaving(View(), source, list[i..])
          invariant clients == old(clients) && OthersUse(old(View()), View(), source)
        {
          assert list[i..][1..] == list[i + 1..];
          ReleasedLeaving(View(), source, list[i..]);
          Release(source, list[i]);
        }
        LeavingEnd(View(), source);
        assert list[|list|..] == [];
        clients := clients - {source};
      }
      NoUses(View(), source);
    }

    method Release(source: nat, ptr: nat)
      requires ptr in matrix ==> matrix[ptr].count == |matrix[ptr].refs|
      modifies this`matrix, this`open, this`closed
      ensures View() == Released(old(View()), source, ptr)
    {
      if ptr in matrix && source in matrix[ptr].refs {
        var ref := matrix[ptr].(refs := matrix[ptr].refs - {source}, count := matrix[ptr].count - 1);
        matrix := matrix[ptr := ref];
        if ref.count == 0 {
          if !(ref.file in files && files[ref.file] == ref.matrix) {
            open, closed := open - {ref.matrix}, closed + [ref.matrix];
            matrix := matrix - {ptr};
          }
        }
      }
    }
  }

  lemma {:induction false} NoUses(s: State, c: nat)
    requires Inv(s) && c !in s.clients
    ensures forall p :: !Uses(s, c, p)
  {
    forall p
      ensures !Uses(s, c, p)
    {
      assert Listed(s, c, p) <==> Uses(s, c, p);
    }
  }

  // What the invariant says: a version in use is open, no version is closed twice or while in use, and a
  // count is the number of clients.
  lemma {:induction false} Safety(s: State, p: nat)
    requires Inv(s) && p in s.matrix
    ensures s.matrix[p].count == |set c | Listed(s, c, p) && c in s.clients :: c|
    ensures s.matrix[p].count > 0 ==> s.matrix[p].matrix in s.open && s.matrix[p].matrix !in s.closed
    ensures Distinct(s.closed)
  {
    assert RefOk(s, p);
    var users := set c | Listed(s, c, p) && c in s.clients :: c;
    forall c
      ensures c in users <==> c in s.matrix[p].refs
    {
      assert Listed(s, c, p) <==> Uses(s, c, p);
    }
    assert users == s.matrix[p].refs;
  }
}
