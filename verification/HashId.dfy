/**
 The gate's table from socket identifiers to connection slots: a hash table whose nodes are the slots
 themselves. The slots of a bucket are linked through the nodes.
 */
module HashId {
  import opened Words
  import opened Chains

  // A node: the identifier in the slot (-1: free) and the next slot of its bucket.
  datatype Node = Node(id: int, next: Option<nat>)

  // ----- `&` with 2^k - 1 -----

  function And(a: nat, b: nat): nat {
    if a == 0 || b == 0 then 0 else a % 2 * (b % 2) + 2 * And(a / 2, b / 2)
  }

  predicate PowerOfTwo(n: nat) {
    n == 1 || (n > 0 && n % 2 == 0 && PowerOfTwo(n / 2))
  }

  // `id & hashmod` is the remainder.
  lemma {:induction false} AndMask(a: nat, n: nat)
    requires PowerOfTwo(n)
    ensures And(a, n - 1) == a % n
  {
    if a == 0 || n == 1 {
    } else {
      AndMask(a / 2, n / 2);
      assert (n - 1) / 2 == n / 2 - 1 && (n - 1) % 2 == 1;
      HalfRemainder(a, n / 2);
    }
  }

  lemma HalfRemainder(a: nat, m: nat)
    requires m > 0
    ensures a % (2 * m) == a % 2 + 2 * (a / 2 % m)
  {
    var q, r := a / 2 / m, a / 2 % m;
    assert a == q * (2 * m) + (a % 2 + 2 * r);
    Remainder(a, 2 * m, q, a % 2 + 2 * r);
  }

  lemma Remainder(a: nat, n: nat, q: nat, r: nat)
    requires n > 0 && a == q * n + r && r < n
    ensures a % n == r
  {
    var d := q - a / n;
    assert a == a / n * n + a % n;
    assert q * n == a / n * n + d * n;
  }

  // ----- The table as values -----

  ghost predicate NodeOk(nodes: seq<Node>, chain: seq<nat>, h: nat, buckets: nat, i: nat)
    requires i < |chain| && buckets > 0
  {
    && chain[i] < |nodes|
    && nodes[chain[i]].id >= 0
    && nodes[chain[i]].id % buckets == h
    && nodes[chain[i]].next == First(chain[i + 1..])
  }

  // The bucket `h` holds exactly the slots of `chain`, in order, and has no cycle.
  ghost predicate ChainOk(nodes: seq<Node>, head: Option<nat>, chain: seq<nat>, h: nat, buckets: nat)
    requires buckets > 0
  {
    && Distinct(chain)
    && head == First(chain)
    && (forall i | 0 <= i < |chain| :: NodeOk(nodes, chain, h, buckets, i))
  }

  ghost predicate Used(nodes: seq<Node>, s: int) {
    0 <= s < |nodes| && nodes[s].id >= 0
  }

  ghost predicate DistinctIds(nodes: seq<Node>) {
    forall s, t | Used(nodes, s) && Used(nodes, t) && s != t :: nodes[s].id != nodes[t].id
  }

  ghost predicate SlotsOk(nodes: seq<Node>, chains: seq<seq<nat>>) {
    && (forall s | 0 <= s < |nodes| :: nodes[s].id >= -1 && (nodes[s].id == -1 ==> nodes[s].next == None))
    && DistinctIds(nodes)
    && (|chains| > 0 ==> forall s | Used(nodes, s) :: s in chains[nodes[s].id % |chains|])
  }

  ghost predicate ChainsOk(nodes: seq<Node>, heads: seq<Option<nat>>, chains: seq<seq<nat>>) {
    && |heads| == |chains| > 0
    && (forall h | 0 <= h < |chains| :: ChainOk(nodes, heads[h], chains[h], h, |chains|))
  }

  ghost predicate TableOk(nodes: seq<Node>, heads: seq<Option<nat>>, chains: seq<seq<nat>>) {
    ChainsOk(nodes, heads, chains) && SlotsOk(nodes, chains)
  }

  // The map that the table stands for.
  ghost function Content(nodes: seq<Node>): map<int, nat>
    requires DistinctIds(nodes)
  {
    map s: nat | s < |nodes| && Used(nodes, s) :: nodes[s].id := s
  }

  lemma {:induction false} ContentAt(nodes: seq<Node>, v: int)
    requires DistinctIds(nodes)
    ensures v in Content(nodes) ==> Used(nodes, Content(nodes)[v]) && nodes[Content(nodes)[v]].id == v
    ensures forall s | Used(nodes, s) && nodes[s].id == v :: v in Content(nodes) && Content(nodes)[v] == s
  {
    forall s | Used(nodes, s) && nodes[s].id == v
      ensures v in Content(nodes) && Content(nodes)[v] == s
    {
      assert nodes[s].id in Content(nodes);
    }
  }

  // ----- Insertion -----

  lemma {:induction false} InsertChains(nodes: seq<Node>, heads: seq<Option<nat>>, chains: seq<seq<nat>>, c: nat,
      v: nat)
    requires TableOk(nodes, heads, chains) && c < |nodes| && nodes[c].id == -1
    ensures var h := v % |heads|;
      ChainsOk(nodes[c := Node(v, heads[h])], heads[h := Some(c)], chains[h := [c] + chains[h]])
  {
    var h := v % |heads|;
    var nodes', chain' := nodes[c := Node(v, heads[h])], [c] + chains[h];
    forall g | 0 <= g < |chains|
      ensures forall i | 0 <= i < |chains[g]| :: NodeOk(nodes, chains[g], g, |chains|, i) && chains[g][i] != c
    {
      assert ChainOk(nodes, heads[g], chains[g], g, |chains|);
    }
    forall i | 0 <= i < |chain'|
      ensures NodeOk(nodes', chain', h, |chains|, i)
    {
      if i > 0 {
        assert chain'[i + 1..] == chains[h][i..];
        assert NodeOk(nodes, chains[h], h, |chains|, i - 1);
      } else {
        assert chain'[1..] == chains[h];
      }
    }
    forall g | 0 <= g < |chains| && g != h
      ensures ChainOk(nodes', heads[g], chains[g], g, |chains|)
    {
      assert forall i | 0 <= i < |chains[g]| ::
          NodeOk(nodes, chains[g], g, |chains|, i) ==> NodeOk(nodes', chains[g], g, |chains|, i);
    }
  }

  lemma {:induction false} InsertSlots(nodes: seq<Node>, heads: seq<Option<nat>>, chains: seq<seq<nat>>, c: nat, v: nat)
    requires TableOk(nodes, heads, chains) && c < |nodes| && nodes[c].id == -1 && v !in Content(nodes)
    ensures var h := v % |heads|; var nodes' := nodes[c := Node(v, heads[h])];
      SlotsOk(nodes', chains[h := [c] + chains[h]]) && Content(nodes') == Content(nodes)[v := c]
  {
    var h := v % |heads|;
    var nodes', chains' := nodes[c := Node(v, heads[h])], chains[h := [c] + chains[h]];
    hide ChainsOk;
    InsertContent(nodes, nodes', c, v);
    hide Content;
    forall s | Used(nodes', s)
      ensures s in chains'[nodes'[s].id % |chains|]
    {
      if s != c {
        assert Used(nodes, s);
        assert s in chains[nodes[s].id % |chains|];
      }
    }
  }

  lemma {:induction false} InsertContent(nodes: seq<Node>, nodes': seq<Node>, c: nat, v: nat)
    requires DistinctIds(nodes) && c < |nodes| == |nodes'| && nodes[c].id == -1 && nodes'[c].id == v
      && v !in Content(nodes)
    requires forall s | 0 <= s < |nodes| && s != c :: nodes'[s] == nodes[s]
    ensures DistinctIds(nodes') && Content(nodes') == Content(nodes)[v := c]
  {
    ContentAt(nodes, v);
    assert forall s | Used(nodes', s) && s != c :: Used(nodes, s);
    var m := Content(nodes)[v := c];
    forall s | Used(nodes', s)
      ensures nodes'[s].id in m && m[nodes'[s].id] == s
    {
      ContentAt(nodes, nodes'[s].id);
    }
    forall w | w in m
      ensures Used(nodes', m[w]) && nodes'[m[w]].id == w
    {
      ContentAt(nodes, w);
    }
    SameContent(nodes, nodes', m);
  }

  // How to tell the content of a table.
  lemma {:induction false} SameContent(nodes: seq<Node>, nodes': seq<Node>, m: map<int, nat>)
    requires DistinctIds(nodes')
    requires forall s | Used(nodes', s) :: nodes'[s].id in m && m[nodes'[s].id] == s
    requires forall v | v in m :: Used(nodes', m[v]) && nodes'[m[v]].id == v
    ensures Content(nodes') == m
  {
    forall v | v in m
      ensures v in Content(nodes') && Content(nodes')[v] == m[v]
    {
      ContentAt(nodes', v);
    }
    forall v | v in Content(nodes')
      ensures v in m
    {
      ContentAt(nodes', v);
    }
  }

  // ----- Removal -----

  // Slot `c`, the `i`th of its bucket, leaves; the slot before it (if any) is linked past it.
  function Unlink(nodes: seq<Node>, chain: seq<nat>, i: nat): seq<Node>
    requires i < |chain| && chain[i] < |nodes| && (i > 0 ==> chain[i - 1] < |nodes|)
  {
    var past := if i == 0 then nodes else nodes[chain[i - 1] := nodes[chain[i - 1]].(next := nodes[chain[i]].next)];
    past[chain[i] := Node(-1, None)]
  }

  function Without(chain: seq<nat>, i: nat): seq<nat>
    requires i < |chain|
  {
    chain[..i] + chain[i + 1..]
  }

  lemma {:induction false} WithoutMembers(chain: seq<nat>, i: nat)
    requires i < |chain| && Distinct(chain)
    ensures Distinct(Without(chain, i))
    ensures forall s :: s in Without(chain, i) <==> s in chain && s != chain[i]
  {
    assert chain == chain[..i] + [chain[i]] + chain[i + 1..];
  }

  ghost predicate InBucket(nodes: seq<Node>, heads: seq<Option<nat>>, chains: seq<seq<nat>>, h: nat, i: nat) {
    TableOk(nodes, heads, chains) && h < |chains| && i < |chains[h]|
  }

  lemma {:induction false} UnlinkWithin(nodes: seq<Node>, heads: seq<Option<nat>>, chains: seq<seq<nat>>, h: nat,
      i: nat)
    requires InBucket(nodes, heads, chains, h, i)
    ensures chains[h][i] < |nodes| && (i > 0 ==> chains[h][i - 1] < |nodes|)
    ensures nodes[chains[h][i]].id >= 0 && nodes[chains[h][i]].id % |chains| == h
    ensures forall j | 0 <= j < |chains[h]| :: NodeOk(nodes, chains[h], h, |chains|, j)
    ensures Distinct(chains[h]) && heads[h] == First(chains[h])
  {
    assert ChainOk(nodes, heads[h], chains[h], h, |chains|);
    assert NodeOk(nodes, chains[h], h, |chains|, i) && (i > 0 ==> NodeOk(nodes, chains[h], h, |chains|, i - 1));
  }

  lemma {:induction false} UnlinkChain(nodes: seq<Node>, heads: seq<Option<nat>>, chains: seq<seq<nat>>, h: nat, i: nat)
    requires InBucket(nodes, heads, chains, h, i)
    requires chains[h][i] < |nodes| && (i > 0 ==> chains[h][i - 1] < |nodes|)
    ensures ChainOk(Unlink(nodes, chains[h], i), if i == 0 then nodes[chains[h][0]].next else heads[h],
      Without(chains[h], i), h, |chains|)
  {
    UnlinkWithin(nodes, heads, chains, h, i);
    var chain := chains[h];
    WithoutMembers(chain, i);
    var nodes', chain' := Unlink(nodes, chain, i), Without(chain, i);
    hide InBucket;
    forall j | 0 <= j < |chain'|
      ensures NodeOk(nodes', chain', h, |chains|, j)
    {
      UnlinkNode(nodes, chain, h, |chains|, i, j);
    }
    assert NodeOk(nodes, chain, h, |chains|, 0);
    assert i == 0 ==> chain' == chain[1..];
  }

  lemma {:induction false} UnlinkNode(nodes: seq<Node>, chain: seq<nat>, h: nat, buckets: nat, i: nat, j: nat)
    requires buckets > 0 && Distinct(chain) && i < |chain| && j < |Without(chain, i)|
    requires forall k | 0 <= k < |chain| :: NodeOk(nodes, chain, h, buckets, k)
    requires chain[i] < |nodes| && (i > 0 ==> chain[i - 1] < |nodes|)
    ensures NodeOk(Unlink(nodes, chain, i), Without(chain, i), h, buckets, j)
  {
    var chain' := Without(chain, i);
    var k := if j < i then j else j + 1;
    assert NodeOk(nodes, chain, h, buckets, k) && NodeOk(nodes, chain, h, buckets, i);
    assert chain'[j] == chain[k] != chain[i];
    assert j + 1 < |chain'| ==> chain'[j + 1..][0] == chain'[j + 1] == chain[if j + 1 < i then j + 1 else j + 2];
  }

  lemma {:induction false} UnlinkOthers(nodes: seq<Node>, heads: seq<Option<nat>>, chains: seq<seq<nat>>, h: nat,
      i: nat, g: nat)
    requires InBucket(nodes, heads, chains, h, i) && g < |chains| && g != h
    requires chains[h][i] < |nodes| && (i > 0 ==> chains[h][i - 1] < |nodes|)
    ensures ChainOk(Unlink(nodes, chains[h], i), heads[g], chains[g], g, |chains|)
  {
    UnlinkWithin(nodes, heads, chains, h, i);
    var chain := chains[h];
    assert ChainOk(nodes, heads[g], chains[g], g, |chains|);
    assert NodeOk(nodes, chain, h, |chains|, i) && (i > 0 ==> NodeOk(nodes, chain, h, |chains|, i - 1));
    hide InBucket;
    forall j | 0 <= j < |chains[g]|
      ensures NodeOk(Unlink(nodes, chain, i), chains[g], g, |chains|, j)
    {
      assert NodeOk(nodes, chains[g], g, |chains|, j);
    }
  }

  // Only the slot that leaves changes its identifier.
  lemma {:induction false} UnlinkIds(nodes: seq<Node>, heads: seq<Option<nat>>, chains: seq<seq<nat>>, h: nat, i: nat)
    requires InBucket(nodes, heads, chains, h, i)
    requires chains[h][i] < |nodes| && (i > 0 ==> chains[h][i - 1] < |nodes|)
    ensures var c := chains[h][i]; var nodes' := Unlink(nodes, chains[h], i);
      && |nodes'| == |nodes| && nodes[c].id >= 0 && nodes'[c] == Node(-1, None) && DistinctIds(nodes)
      && (forall s | 0 <= s < |nodes| && s != c :: nodes'[s].id == nodes[s].id)
      && (forall s | 0 <= s < |nodes| && s != c && nodes[s].id == -1 :: nodes'[s].next == None)
  {
    UnlinkWithin(nodes, heads, chains, h, i);
    assert i > 0 ==> NodeOk(nodes, chains[h], h, |chains|, i - 1) && chains[h][i - 1] != chains[h][i];
  }

  lemma {:induction false} UnlinkContent(nodes: seq<Node>, nodes': seq<Node>, c: nat)
    requires DistinctIds(nodes) && |nodes'| == |nodes| && Used(nodes, c) && nodes'[c].id == -1
    requires forall s | 0 <= s < |nodes| && s != c :: nodes'[s].id == nodes[s].id
    ensures DistinctIds(nodes') && Content(nodes') == Content(nodes) - {nodes[c].id}
  {
    var m := Content(nodes) - {nodes[c].id};
    forall s | Used(nodes', s)
      ensures nodes'[s].id in m && m[nodes'[s].id] == s
    {
      assert Used(nodes, s);
      ContentAt(nodes, nodes[s].id);
    }
    forall v | v in m
      ensures Used(nodes', m[v]) && nodes'[m[v]].id == v
    {
      ContentAt(nodes, v);
    }
    assert forall s | Used(nodes', s) :: Used(nodes, s);
    SameContent(nodes, nodes', m);
  }

  lemma {:induction false} UnlinkSlots(nodes: seq<Node>, heads: seq<Option<nat>>, chains: seq<seq<nat>>, h: nat, i: nat)
    requires InBucket(nodes, heads, chains, h, i)
    requires chains[h][i] < |nodes| && (i > 0 ==> chains[h][i - 1] < |nodes|)
    ensures var c := chains[h][i]; var nodes' := Unlink(nodes, chains[h], i);
      SlotsOk(nodes', chains[h := Without(chains[h], i)]) && Content(nodes') == Content(nodes) - {nodes[c].id}
  {
    hide Unlink;
    hide Without;
    hide ChainsOk;
    hide Content;
    UnlinkWithin(nodes, heads, chains, h, i);
    UnlinkIds(nodes, heads, chains, h, i);
    var c := chains[h][i];
    var nodes', chains' := Unlink(nodes, chains[h], i), chains[h := Without(chains[h], i)];
    WithoutMembers(chains[h], i);
    UnlinkContent(nodes, nodes', c);
    forall s | Used(nodes', s)
      ensures s in chains'[nodes'[s].id % |chains|]
    {
      assert Used(nodes, s) && s != c;
      assert s in chains[nodes[s].id % |chains|];
    }
  }

  lemma {:induction false} UnlinkTable(nodes: seq<Node>, heads: seq<Option<nat>>, chains: seq<seq<nat>>, h: nat, i: nat)
    requires InBucket(nodes, heads, chains, h, i)
    ensures chains[h][i] < |nodes| && (i > 0 ==> chains[h][i - 1] < |nodes|)
    ensures var nodes' := Unlink(nodes, chains[h], i);
      var head := if i == 0 then nodes[chains[h][0]].next else heads[h];
      && TableOk(nodes', heads[h := head], chains[h := Without(chains[h], i)])
      && Content(nodes') == Content(nodes) - {nodes[chains[h][i]].id}
  {
    UnlinkWithin(nodes, heads, chains, h, i);
    UnlinkSlots(nodes, heads, chains, h, i);
    UnlinkChain(nodes, heads, chains, h, i);
    forall g | 0 <= g < |chains| && g != h
      ensures ChainOk(Unlink(nodes, chains[h], i), heads[g], chains[g], g, |chains|)
    {
      UnlinkOthers(nodes, heads, chains, h, i, g);
    }
    hide SlotsOk;
    hide ChainOk;
  }

  // ----- Counting -----

  ghost function UsedSlots(nodes: seq<Node>): set<nat> {
    set s: nat | s < |nodes| && Used(nodes, s)
  }

  lemma {:induction false} AllUsed(nodes: seq<Node>)
    ensures UsedSlots(nodes) == Below(|nodes|) <==> forall s | 0 <= s < |nodes| :: Used(nodes, s)
    ensures UsedSlots(nodes) <= Below(|nodes|)
  {
    if UsedSlots(nodes) == Below(|nodes|) {
      forall s | 0 <= s < |nodes|
        ensures Used(nodes, s)
      {
        assert s in Below(|nodes|);
        assert s in UsedSlots(nodes);
      }
    }
  }

  lemma {:induction false} ContentValues(nodes: seq<Node>)
    requires DistinctIds(nodes)
    ensures forall s | s in UsedSlots(nodes) ::
      s < |nodes| && nodes[s].id in Content(nodes) && Content(nodes)[nodes[s].id] == s
    ensures forall v | v in Content(nodes) :: Content(nodes)[v] in UsedSlots(nodes) && nodes[Content(nodes)[v]].id == v
  {
    forall s | s in UsedSlots(nodes)
      ensures nodes[s].id in Content(nodes) && Content(nodes)[nodes[s].id] == s
    {
      ContentAt(nodes, nodes[s].id);
    }
    forall v | v in Content(nodes)
      ensures Content(nodes)[v] in UsedSlots(nodes) && nodes[Content(nodes)[v]].id == v
    {
      ContentAt(nodes, v);
    }
  }

  lemma {:induction false} ContentSize(nodes: seq<Node>)
    requires DistinctIds(nodes)
    ensures |Content(nodes)| == |UsedSlots(nodes)| <= |nodes|
    ensures |UsedSlots(nodes)| == |nodes| <==> forall s | 0 <= s < |nodes| :: Used(nodes, s)
  {
    AllUsed(nodes);
    Subset(UsedSlots(nodes), Below(|nodes|));
    hide UsedSlots;
    ContentValues(nodes);
    ValuesSize(Content(nodes), UsedSlots(nodes), nodes);
  }

  ghost function Below(n: nat): (r: set<nat>)
    ensures |r| == n && forall s: nat :: s in r <==> s < n
  {
    if n == 0 then {} else Below(n - 1) + {n - 1}
  }

  lemma {:induction false} Subset(a: set<nat>, b: set<nat>)
    requires a <= b
    ensures |a| <= |b| && (|a| == |b| <==> a == b)
  {
    assert b == a + (b - a);
  }

  lemma {:induction false} ValuesSize(m: map<int, nat>, slots: set<nat>, nodes: seq<Node>)
    requires forall s | s in slots :: s < |nodes| && nodes[s].id in m && m[nodes[s].id] == s
    requires forall v | v in m :: m[v] in slots && nodes[m[v]].id == v
    ensures |m| == |slots|
    decreases |slots|
  {
    if s :| s in slots {
      var v := nodes[s].id;
      ValuesSize(m - {v}, slots - {s}, nodes);
      assert m == (m - {v})[v := s];
    } else {
      assert forall v :: v !in m;
      assert |m.Keys| == 0;
    }
  }

  // ----- Walking a bucket -----

  // The walk stands at `c`, the `i`th slot of the bucket of identifier `v`; the ones before are others.
  ghost predicate WalkAt(nodes: seq<Node>, chain: seq<nat>, c: Option<nat>, i: nat, v: int) {
    && i <= |chain|
    && c == First(chain[i..])
    && (forall j | 0 <= j < i && chain[j] < |nodes| :: nodes[chain[j]].id != v)
  }

  lemma {:induction false} WalkStart(nodes: seq<Node>, heads: seq<Option<nat>>, chains: seq<seq<nat>>, h: nat, v: int)
    requires TableOk(nodes, heads, chains) && h < |chains|
    ensures WalkAt(nodes, chains[h], heads[h], 0, v)
    ensures forall j | 0 <= j < |chains[h]| :: NodeOk(nodes, chains[h], h, |chains|, j)
    ensures heads[h] == First(chains[h])
  {
    assert ChainOk(nodes, heads[h], chains[h], h, |chains|);
    assert chains[h][0..] == chains[h];
  }

  lemma {:induction false} WalkNext(nodes: seq<Node>, chain: seq<nat>, c: Option<nat>, i: nat, v: int, h: nat,
      buckets: nat)
    requires buckets > 0 && WalkAt(nodes, chain, c, i, v) && c.Some?
    requires forall j | 0 <= j < |chain| :: NodeOk(nodes, chain, h, buckets, j)
    ensures i < |chain| && c.value == chain[i] && c.value < |nodes|
    ensures nodes[c.value].id != v ==> WalkAt(nodes, chain, nodes[c.value].next, i + 1, v)
  {
    assert NodeOk(nodes, chain, h, buckets, i);
  }

  // An identifier is in the map exactly when the walk finds it.
  lemma {:induction false} WalkEnd(nodes: seq<Node>, heads: seq<Option<nat>>, chains: seq<seq<nat>>, v: nat, i: nat)
    requires TableOk(nodes, heads, chains) && WalkAt(nodes, chains[v % |chains|], None, i, v)
    ensures v !in Content(nodes)
  {
    var chain := chains[v % |chains|];
    assert ChainOk(nodes, heads[v % |chains|], chain, v % |chains|, |chains|);
    assert i == |chain|;
    forall s | Used(nodes, s)
      ensures nodes[s].id != v
    {
      if s in chain {
        var j :| 0 <= j < |chain| && chain[j] == s;
        assert NodeOk(nodes, chain, v % |chains|, |chains|, j);
      } else {
        assert s in chains[nodes[s].id % |chains|];
      }
    }
    ContentAt(nodes, v);
  }

  lemma {:induction false} ProbeAt(v: nat, n: nat, s: nat) returns (i: nat)
    requires s < n
    ensures i < n && Probe(v, i, n) == s
  {
    var r, q := v % n, v / n;
    assert v == q * n + r;
    i := if s >= r then s - r else s + n - r;
    if s >= r {
      Remainder(i + v, n, q, s);
    } else {
      assert (q + 1) * n == q * n + n;
      Remainder(i + v, n, q + 1, s);
    }
  }

  // Some slot that the search of hashid_insert visits is free, unless all are used.
  lemma {:induction false} ProbeAll(nodes: seq<Node>, v: nat)
    requires |nodes| > 0 && forall i | 0 <= i < |nodes| :: Used(nodes, Probe(v, i, |nodes|))
    ensures forall s | 0 <= s < |nodes| :: Used(nodes, s)
  {
    hide Probe;
    forall s | 0 <= s < |nodes|
      ensures Used(nodes, s)
    {
      var i := ProbeAt(v, |nodes|, s);
      assert Used(nodes, Probe(v, i, |nodes|));
    }
  }

  function Probe(v: nat, i: nat, cap: nat): nat
    requires cap > 0
  {
    (i + v) % cap
  }

  lemma EmptyTable(nodes: seq<Node>, heads: seq<Option<nat>>, chains: seq<seq<nat>>)
    requires |heads| == |chains| > 0 && forall s | 0 <= s < |nodes| :: nodes[s] == Node(-1, None)
    requires forall h | 0 <= h < |chains| :: heads[h] == None && chains[h] == []
    ensures TableOk(nodes, heads, chains) && DistinctIds(nodes)
    ensures Content(nodes) == map[] && |UsedSlots(nodes)| == 0
  {
    assert forall s :: !Used(nodes, s);
    assert forall h | 0 <= h < |chains| :: ChainOk(nodes, heads[h], chains[h], h, |chains|);
    assert UsedSlots(nodes) == {};
  }

  class Table {
    var hashmod: nat
    var cap: nat
    var count: nat
    var id: array<Node>
    var hash: array<Option<nat>>
    ghost var chains: seq<seq<nat>>

    ghost predicate Valid()
      reads this, id, hash
    {
      && TableOk(id[..], hash[..], chains)
      && id.Length == cap && hash.Length == hashmod + 1 && PowerOfTwo(hashmod + 1)
      && count == |UsedSlots(id[..])|
    }

    // The map from identifiers to slots.
    ghost function Map(): map<int, nat>
      reads this, id, hash
      requires Valid()
    {
      Content(id[..])
    }

    // hashid_init
    constructor (max: nat)
      ensures Valid() && fresh(id) && fresh(hash) && cap == max && Map() == map[]
    {
      var hashcap := 16;
      assert PowerOfTwo(16) by {
        assert PowerOfTwo(8) by { assert PowerOfTwo(4) by { assert PowerOfTwo(2); } }
      }
      while hashcap < max
        invariant hashcap >= 1 && PowerOfTwo(hashcap)
        decreases max - hashcap
      {
        assert hashcap * 2 / 2 == hashcap;
        hashcap := hashcap * 2;
      }
      hashmod, cap, count := hashcap - 1, max, 0;
      id := new Node[max](_ => Node(-1, None));
      hash := new Option<nat>[hashcap](_ => None);
      chains := seq(hashcap, _ => []);
      new;
      hide *;
      EmptyTable(id[..], hash[..], chains);
    }

    // hashid_lookup
    method Lookup(v: nat) returns (slot: int)
      requires Valid()
      ensures slot == if v in Map() then Map()[v] else -1
    {
      AndMask(v, hashmod + 1);
      hide PowerOfTwo;
      hide And;
      hide TableOk;
      hide UsedSlots;
      TableParts(id[..], hash[..], chains);
      var h := And(v, hashmod);
      var c: Option<nat> := hash[h];
      ghost var i: nat := 0;
      WalkStart(id[..], hash[..], chains, h, v);
      while c.Some?
        invariant WalkAt(id[..], chains[h], c, i, v)
        decreases |chains[h]| - i
      {
        WalkNext(id[..], chains[h], c, i, v, h, |chains|);
        if id[c.value].id == v {
          ContentAt(id[..], v);
          return c.value;
        }
        c := id[c.value].next;
        i := i + 1;
      }
      WalkEnd(id[..], hash[..], chains, v, i);
      return -1;
    }

    // hashid_full
    function Full(): (r: bool)
      reads this, id, hash
      requires Valid()
      ensures r <==> |Map()| == cap
    {
      ContentSize(id[..]);
      count == cap
    }

    // hashid_insert: takes the first free slot from `v % cap` on.
    method Insert(v: nat) returns (slot: nat)
      requires Valid() && !Full() && v !in Map()
      modifies this`count, this`chains, id, hash
      ensures Valid()
      ensures slot < cap && slot !in old(Map()).Values && Map() == old(Map())[v := slot]
      ensures FirstFree(old(id[..]), v, slot)
    {
      hide And;
      hide PowerOfTwo;
      hide TableOk;
      hide Content;
      hide DistinctIds;
      hide UsedSlots;
      hide Used;
      hide FirstFree;
      ghost var nodes, heads := id[..], hash[..];
      TableParts(nodes, heads, chains);
      ContentSize(nodes);
      slot := FindFree(v);
      AndMask(v, hashmod + 1);
      InsertParts(nodes, heads, chains, slot, v);
      var h := And(v, hashmod);
      count := count + 1;
      Place(slot, v, h);
      chains := chains[h := [slot] + chains[h]];
    }

    // Slot `slot`, whose next is NULL, becomes the first of bucket `h`.
    method Place(slot: nat, v: nat, h: nat)
      requires slot < id.Length && h < hash.Length && id[slot].next == None
      modifies id, hash
      ensures id[..] == old(id[..])[slot := Node(v, old(hash[h]))]
      ensures hash[..] == old(hash[..])[h := Some(slot)]
    {
      id[slot] := id[slot].(id := v);
      if hash[h].Some? {
        id[slot] := id[slot].(next := hash[h]);
      }
      hash[h] := Some(slot);
    }

    // hashid_remove
    method Remove(v: nat) returns (slot: int)
      requires Valid()
      modifies this`count, this`chains, id, hash
      ensures Valid() && Map() == old(Map()) - {v}
      ensures slot == if v in old(Map()) then old(Map())[v] else -1
      ensures slot >= 0 ==> slot < cap && id[slot] == Node(-1, None)
    {
      hide PowerOfTwo;
      hide TableOk;
      hide UsedSlots;
      TableParts(id[..], hash[..], chains);
      var found, h, c, before, i := FindBefore(v);
      if !found {
        return -1;
      }
      ContentAt(id[..], v);
      Cut(v, h, c, before, i);
      return c;
    }

    // The slot of `v`, and the one before it in its bucket.
    method FindBefore(v: nat) returns (found: bool, h: nat, c: nat, before: Option<nat>, ghost i: nat)
      requires Valid()
      ensures !found ==> v !in Map()
      ensures found ==>
        && h < hash.Length && i < |chains[h]| && c == chains[h][i] && c < id.Length && id[c].id == v
        && before == if i == 0 then None else Some(chains[h][i - 1])
    {
      AndMask(v, hashmod + 1);
      hide PowerOfTwo;
      hide And;
      hide TableOk;
      hide UsedSlots;
      TableParts(id[..], hash[..], chains);
      h, c, i := And(v, hashmod), 0, 0;
      WalkStart(id[..], hash[..], chains, h, v);
      if hash[h] == None {
        WalkEnd(id[..], hash[..], chains, v, 0);
        return false, h, c, None, i;
      }
      c := hash[h].value;
      WalkNext(id[..], chains[h], Some(c), 0, v, h, |chains|);
      if id[c].id == v {
        return true, h, c, None, i;
      }
      while id[c].next.Some?
        invariant c < id.Length && id[c].id != v && WalkAt(id[..], chains[h], Some(c), i, v)
        invariant i < |chains[h]| && c == chains[h][i]
        decreases |chains[h]| - i
      {
        WalkNext(id[..], chains[h], Some(c), i, v, h, |chains|);
        var temp: nat := id[c].next.value;
        WalkNext(id[..], chains[h], Some(temp), i + 1, v, h, |chains|);
        if id[temp].id == v {
          return true, h, temp, Some(c), i + 1;
        }
        c := temp;
        i := i + 1;
      }
      WalkNext(id[..], chains[h], Some(c), i, v, h, |chains|);
      WalkEnd(id[..], hash[..], chains, v, i + 1);
      return false, h, c, None, i;
    }

    // Slot `c`, the `i`th of bucket `h`, is unlinked from the one before and cleared.
    method Cut(v: nat, h: nat, c: nat, before: Option<nat>, ghost i: nat)
      requires Valid() && h < hash.Length && i < |chains[h]| && c == chains[h][i] && c < id.Length && id[c].id == v
      requires before == if i == 0 then None else Some(chains[h][i - 1])
      modifies this`count, this`chains, id, hash
      ensures Valid() && Map() == old(Map()) - {v} && id[c] == Node(-1, None)
    {
      hide TableOk;
      hide Content;
      hide DistinctIds;
      hide PowerOfTwo;
      hide UsedSlots;
      hide Without;
      hide Unlink;
      hide Used;
      hide First;
      ghost var nodes, heads, k := id[..], hash[..], chains;
      TableParts(nodes, heads, k);
      CutParts(nodes, heads, k, h, i, v);
      Relink(h, c, before, chains[h], i);
      chains := chains[h := Without(chains[h], i)];
      count := count - 1;
    }

    method Relink(h: nat, c: nat, before: Option<nat>, ghost chain: seq<nat>, ghost i: nat)
      requires h < hash.Length && c < id.Length && i < |chain| && c == chain[i]
      requires i > 0 ==> chain[i - 1] < id.Length && chain[i - 1] != c
      requires before == if i == 0 then None else Some(chain[i - 1])
      modifies id, hash
      ensures id[..] == Unlink(old(id[..]), chain, i)
      ensures hash[..] == old(hash[..])[h := if i == 0 then old(id[c]).next else old(hash[h])]
      ensures id[c] == Node(-1, None)
    {
      if before == None {
        hash[h] := id[c].next;
      } else {
        id[before.value] := id[before.value].(next := id[c].next);
      }
      id[c] := Node(-1, None);
    }

    method FindFree(v: nat) returns (slot: nat)
      requires Valid() && |UsedSlots(id[..])| < cap
      ensures slot < cap && id[slot] == Node(-1, None)
      ensures FirstFree(id[..], v, slot)
    {
      ContentSize(id[..]);
      for i := 0 to cap
        invariant forall j | 0 <= j < i :: Used(id[..], Probe(v, j, cap))
      {
        slot := (i + v) % cap;
        if id[slot].id == -1 {
          assert IsProbe(v, i, cap, slot);
          return;
        }
        assert Used(id[..], Probe(v, i, cap));
      }
      ProbeAll(id[..], v);
      assert false;
    }
  }

  lemma InsertParts(nodes: seq<Node>, heads: seq<Option<nat>>, chains: seq<seq<nat>>, c: nat, v: nat)
    requires TableOk(nodes, heads, chains) && c < |nodes| && nodes[c].id == -1 && v !in Content(nodes)
    ensures |heads| == |chains| > 0
    ensures var h := v % |heads|; var nodes' := nodes[c := Node(v, heads[h])];
      && TableOk(nodes', heads[h := Some(c)], chains[h := [c] + chains[h]])
      && DistinctIds(nodes) && DistinctIds(nodes')
      && Content(nodes') == Content(nodes)[v := c] && c !in Content(nodes).Values
      && |UsedSlots(nodes')| == |UsedSlots(nodes)| + 1
  {
    InsertChains(nodes, heads, chains, c, v);
    InsertSlots(nodes, heads, chains, c, v);
    ContentSize(nodes);
    ContentSize(nodes[c := Node(v, heads[v % |heads|])]);
    ContentValues(nodes);
  }

  lemma CutParts(nodes: seq<Node>, heads: seq<Option<nat>>, chains: seq<seq<nat>>, h: nat, i: nat, v: nat)
    requires InBucket(nodes, heads, chains, h, i) && h < |heads|
    requires chains[h][i] < |nodes| && nodes[chains[h][i]].id == v
    ensures i > 0 ==> chains[h][i - 1] < |nodes| && chains[h][i - 1] != chains[h][i]
    ensures var nodes' := Unlink(nodes, chains[h], i);
      && TableOk(nodes', heads[h := if i == 0 then nodes[chains[h][i]].next else heads[h]],
           chains[h := Without(chains[h], i)])
      && |nodes'| == |nodes| && DistinctIds(nodes) && DistinctIds(nodes')
      && Content(nodes') == Content(nodes) - {v}
      && |UsedSlots(nodes')| == |UsedSlots(nodes)| - 1
  {
    UnlinkWithin(nodes, heads, chains, h, i);
    UnlinkTable(nodes, heads, chains, h, i);
    ContentAt(nodes, v);
    CutSize(nodes, Unlink(nodes, chains[h], i), v);
  }

  lemma CutSize(nodes: seq<Node>, nodes': seq<Node>, v: nat)
    requires DistinctIds(nodes) && DistinctIds(nodes') && v in Content(nodes) && Content(nodes') == Content(nodes) - {v}
    ensures |UsedSlots(nodes')| == |UsedSlots(nodes)| - 1
  {
    ContentSize(nodes);
    ContentSize(nodes');
    assert Content(nodes) == Content(nodes')[v := Content(nodes)[v]];
  }

  predicate IsProbe(v: nat, k: nat, cap: nat, slot: nat) {
    cap > 0 && slot == Probe(v, k, cap)
  }

  // `slot` is the first free one of the search from `v % cap` on.
  ghost predicate FirstFree(nodes: seq<Node>, v: nat, slot: nat) {
    && slot < |nodes| && nodes[slot].id == -1
    && exists k: nat :: IsProbe(v, k, |nodes|, slot) && forall i | 0 <= i < k :: Used(nodes, Probe(v, i, |nodes|))
  }

  lemma TableParts(nodes: seq<Node>, heads: seq<Option<nat>>, chains: seq<seq<nat>>)
    requires TableOk(nodes, heads, chains)
    ensures |heads| == |chains| > 0 && DistinctIds(nodes)
  {
  }
}
