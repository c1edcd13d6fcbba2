/**
 The SGI pool allocator: sixteen free lists of blocks of 8, 16, ..., 128 bytes, linked through the
 first word of each free block, and a window of unused memory from which blocks are carved.
 */
module PoolAllocator {
  const ALIGN: nat := 8
  const MAX_BYTES: nat := 128
  const LISTS: nat := 16
  const BATCH: nat := 20

  function RoundUp(n: nat): (r: nat)
    ensures r % 8 == 0 && n <= r < n + 8
  {
    (n + 7) / 8 * 8
  }

  function ListIndex(n: nat): (i: nat)
    requires n > 0
    ensures 8 * i < n <= 8 * (i + 1)
  {
    (n + 7) / 8 - 1
  }

  datatype Range = Range(lo: nat, hi: nat)

  // A block of `size` bytes the allocator has cut: in use, or on the free list for its size.
  datatype Block = Block(size: nat, live: bool)

  // Every byte obtained from malloc belongs to the window, to memory being cut, or to the block at `p`.
  datatype Owner = Window | Carved | In(p: nat)

  ghost predicate Aligned(r: Range) {
    r.lo <= r.hi && r.lo % 8 == 0 && r.hi % 8 == 0
  }

  ghost predicate BlockOk(p: nat, b: Block) {
    p > 0 && p % 8 == 0 && b.size % 8 == 0 && 8 <= b.size <= 128
  }

  ghost predicate Within(r: Range, a: nat) { r.lo <= a < r.hi }

  ghost function Extent(p: nat, b: Block): Range { Range(p, p + b.size) }

  // Who owns each byte: window `w`, memory being cut `c`, and every block.
  ghost predicate Owns(owner: map<nat, Owner>, blocks: map<nat, Block>, w: Range, c: Range) {
    && Aligned(w) && Aligned(c)
    && 0 !in owner
    && (forall p | p in blocks :: BlockOk(p, blocks[p]))
    && (forall a | Within(w, a) :: a in owner && owner[a] == Window)
    && (forall a | Within(c, a) :: a in owner && owner[a] == Carved)
    && (forall p, a | p in blocks && Within(Extent(p, blocks[p]), a) :: a in owner && owner[a] == In(p))
    && (forall a | a in owner :: OwnedRight(owner[a], blocks, w, c, a))
  }

  ghost predicate OwnedRight(o: Owner, blocks: map<nat, Block>, w: Range, c: Range, a: nat) {
    match o
    case Window => Within(w, a)
    case Carved => Within(c, a)
    case In(p) => p in blocks && Within(Extent(p, blocks[p]), a)
  }

  // What Owns says without the owner map: blocks and window do not overlap and cover all the bytes.
  lemma {:induction false} Partition(owner: map<nat, Owner>, blocks: map<nat, Block>, w: Range, c: Range)
    requires Owns(owner, blocks, w, c) && c.lo == c.hi
    ensures forall p, q | p in blocks && q in blocks && p < q :: p + blocks[p].size <= q
    ensures forall p | p in blocks && w.lo < w.hi :: p + blocks[p].size <= w.lo || w.hi <= p
    ensures forall a: nat :: a in owner <==> Within(w, a) || exists p :: p in blocks && Within(Extent(p, blocks[p]), a)
  {
    forall p, q | p in blocks && q in blocks && p < q
      ensures p + blocks[p].size <= q
    {
      BlocksApart(owner, blocks, w, c, p, q);
    }
    forall p | p in blocks && w.lo < w.hi
      ensures p + blocks[p].size <= w.lo || w.hi <= p
    {
      WindowApart(owner, blocks, w, c, p);
    }
    forall a: nat
      ensures a in owner <==> Within(w, a) || exists p :: p in blocks && Within(Extent(p, blocks[p]), a)
    {
      if a in owner {
        assert OwnedRight(owner[a], blocks, w, c, a);
      }
    }
  }

  lemma {:induction false} BlocksApart(owner: map<nat, Owner>, blocks: map<nat, Block>, w: Range, c: Range, p: nat,
      q: nat)
    requires Owns(owner, blocks, w, c) && p in blocks && q in blocks && p < q
    ensures p + blocks[p].size <= q
  {
    assert BlockOk(q, blocks[q]);
    assert Within(Extent(q, blocks[q]), q);
    assert owner[q] == In(q);
    assert !Within(Extent(p, blocks[p]), q);
  }

  lemma {:induction false} WindowApart(owner: map<nat, Owner>, blocks: map<nat, Block>, w: Range, c: Range, p: nat)
    requires Owns(owner, blocks, w, c) && p in blocks && w.lo < w.hi
    ensures p + blocks[p].size <= w.lo || w.hi <= p
  {
    assert BlockOk(p, blocks[p]);
    assert Within(Extent(p, blocks[p]), p) && Within(w, w.lo);
    assert !Within(w, p) && !Within(Extent(p, blocks[p]), w.lo);
  }

  ghost function Give(owner: map<nat, Owner>, r: Range, o: Owner): map<nat, Owner> {
    map a: nat | a in owner :: if Within(r, a) then o else owner[a]
  }

  // Cut `k` bytes from the window.
  lemma {:induction false} OwnsCarve(owner: map<nat, Owner>, blocks: map<nat, Block>, w: Range, c: Range, k: nat)
    requires Owns(owner, blocks, w, c) && c.lo == c.hi
    requires k % 8 == 0 && k <= w.hi - w.lo
    ensures Owns(Give(owner, Range(w.lo, w.lo + k), Carved), blocks, Range(w.lo + k, w.hi), Range(w.lo, w.lo + k))
    ensures Give(owner, Range(w.lo, w.lo + k), Carved).Keys == owner.Keys
  {
    hide Give;
    hide BlockOk;
    hide OwnedRight;
    var r := Range(w.lo, w.lo + k);
    var owner' := Give(owner, r, Carved);
    GiveAt(owner, r, Carved);
    forall p, a | p in blocks && Within(Extent(p, blocks[p]), a)
      ensures a in owner' && owner'[a] == In(p)
    {
      assert owner[a] == In(p) && !Within(w, a);
    }
    forall a | a in owner'
      ensures OwnedRight(owner'[a], blocks, Range(w.lo + k, w.hi), r, a)
    {
      CarvedRight(owner[a], blocks, w, c, k, a);
    }
  }

  lemma {:induction false} CarvedRight(o: Owner, blocks: map<nat, Block>, w: Range, c: Range, k: nat, a: nat)
    requires OwnedRight(o, blocks, w, c, a) && c.lo == c.hi && k <= w.hi - w.lo
    ensures var r := Range(w.lo, w.lo + k);
      OwnedRight(if Within(r, a) then Carved else o, blocks, Range(w.lo + k, w.hi), r, a)
  {
  }

  lemma {:induction false} OwnsParts(owner: map<nat, Owner>, blocks: map<nat, Block>, w: Range, c: Range)
    requires Owns(owner, blocks, w, c)
    ensures Aligned(w) && Aligned(c)
    ensures 0 !in owner
    ensures forall p | p in blocks :: BlockOk(p, blocks[p])
    ensures forall a | Within(w, a) :: a in owner && owner[a] == Window
    ensures forall a | Within(c, a) :: a in owner && owner[a] == Carved
    ensures forall p, a | p in blocks && Within(Extent(p, blocks[p]), a) :: a in owner && owner[a] == In(p)
    ensures forall a | a in owner :: OwnedRight(owner[a], blocks, w, c, a)
  {
  }

  lemma {:induction false} OwnsIntro(owner: map<nat, Owner>, blocks: map<nat, Block>, w: Range, c: Range)
    requires Aligned(w) && Aligned(c)
    requires 0 !in owner
    requires forall p | p in blocks :: BlockOk(p, blocks[p])
    requires forall a | Within(w, a) :: a in owner && owner[a] == Window
    requires forall a | Within(c, a) :: a in owner && owner[a] == Carved
    requires forall p, a | p in blocks && Within(Extent(p, blocks[p]), a) :: a in owner && owner[a] == In(p)
    requires forall a | a in owner :: OwnedRight(owner[a], blocks, w, c, a)
    ensures Owns(owner, blocks, w, c)
  {
  }

  lemma {:induction false} OwnedElsewhere(o: Owner, blocks: map<nat, Block>, w: Range, w': Range, c: Range, a: nat)
    requires OwnedRight(o, blocks, w, c, a) && !Within(w, a)
    ensures OwnedRight(o, blocks, w', c, a)
  {
  }

  lemma {:induction false} GiveAt(owner: map<nat, Owner>, r: Range, o: Owner)
    ensures Give(owner, r, o).Keys == owner.Keys
    ensures forall a | a in owner ::
      a in Give(owner, r, o) && Give(owner, r, o)[a] == if Within(r, a) then o else owner[a]
  {
  }

  // Only the first byte of a block can be at its address.
  lemma {:induction false} StartsOwned(owner: map<nat, Owner>, blocks: map<nat, Block>, w: Range, c: Range)
    requires Owns(owner, blocks, w, c)
    ensures forall p | p in blocks :: p in owner && owner[p] == In(p)
  {
    forall p | p in blocks
      ensures p in owner && owner[p] == In(p)
    {
      assert BlockOk(p, blocks[p]) && Within(Extent(p, blocks[p]), p);
    }
  }

  lemma {:induction false} Split(c: Range, size: nat, r: Range, c': Range)
    requires Aligned(c) && size % 8 == 0 && 0 < size <= c.hi - c.lo
    requires r == Range(c.lo, c.lo + size) && c' == Range(c.lo + size, c.hi)
    ensures Aligned(c') && c.lo % 8 == 0 && Within(c, c.lo)
    ensures forall a :: Within(c, a) <==> Within(r, a) || Within(c', a)
    ensures forall a | Within(c', a) :: !Within(r, a)
  {
  }

  lemma {:induction false} BlockFacts(p: nat, b: Block)
    ensures BlockOk(p, b) <==> p > 0 && p % 8 == 0 && b.size % 8 == 0 && 8 <= b.size <= 128
    ensures Extent(p, b) == Range(p, p + b.size)
  {
  }

  lemma {:induction false} OwnedIn(blocks: map<nat, Block>, w: Range, c: Range, p: nat, a: nat)
    requires p in blocks && Within(Extent(p, blocks[p]), a)
    ensures OwnedRight(In(p), blocks, w, c, a)
  {
  }

  // How a byte stays rightly owned when block `p` comes, or the cut memory shrinks elsewhere.
  lemma {:induction false} OwnedStays(o: Owner, blocks: map<nat, Block>, blocks': map<nat, Block>, w: Range,
      w': Range, c: Range, c': Range, a: nat)
    requires OwnedRight(o, blocks, w, c, a)
    requires o.In? && o.p in blocks ==> o.p in blocks' && blocks'[o.p].size == blocks[o.p].size
    requires o == Window ==> w' == w
    requires o == Carved && Within(c, a) ==> Within(c', a)
    ensures OwnedRight(o, blocks', w', c', a)
  {
  }

  // The first `size` bytes of the cut memory become a block.
  lemma {:induction false} OwnsBlock(owner: map<nat, Owner>, blocks: map<nat, Block>, w: Range, c: Range, b: Block)
    requires Owns(owner, blocks, w, c)
    requires b.size % 8 == 0 && 8 <= b.size <= 128 && b.size <= c.hi - c.lo
    ensures c.lo !in blocks
    ensures Owns(Give(owner, Range(c.lo, c.lo + b.size), In(c.lo)), blocks[c.lo := b], w, Range(c.lo + b.size, c.hi))
    ensures Give(owner, Range(c.lo, c.lo + b.size), In(c.lo)).Keys == owner.Keys
  {
    hide *;
    OwnsParts(owner, blocks, w, c);
    var r, c', b' := Range(c.lo, c.lo + b.size), Range(c.lo + b.size, c.hi), blocks[c.lo := b];
    Split(c, b.size, r, c');
    StartsOwned(owner, blocks, w, c);
    BlockFacts(c.lo, b);
    var o' := Give(owner, r, In(c.lo));
    GiveAt(owner, r, In(c.lo));
    assert owner[c.lo] == Carved;
    forall p, a | p in b' && Within(Extent(p, b'[p]), a)
      ensures a in o' && o'[a] == In(p)
    {
      if p != c.lo {
        assert owner[a] == In(p);
      }
    }
    forall a | a in o'
      ensures OwnedRight(o'[a], b', w, c', a)
    {
      if Within(r, a) {
        OwnedIn(b', w, c', c.lo, a);
      } else {
        OwnedStays(owner[a], blocks, b', w, w, c, c', a);
      }
    }
    OwnsIntro(o', b', w, c');
  }

  // A block becomes the window.
  lemma {:induction false} OwnsUnblock(owner: map<nat, Owner>, blocks: map<nat, Block>, w: Range, c: Range, p: nat)
    requires Owns(owner, blocks, w, c) && w.lo == w.hi && p in blocks
    ensures Owns(Give(owner, Extent(p, blocks[p]), Window), blocks - {p}, Extent(p, blocks[p]), c)
    ensures Give(owner, Extent(p, blocks[p]), Window).Keys == owner.Keys
  {
    hide *;
    OwnsParts(owner, blocks, w, c);
    BlockFacts(p, blocks[p]);
    var r, b' := Extent(p, blocks[p]), blocks - {p};
    var o' := Give(owner, r, Window);
    GiveAt(owner, r, Window);
    EmptyRange(w);
    AlignedIs(r);
    forall q, a | q in b' && Within(Extent(q, b'[q]), a)
      ensures a in o' && o'[a] == In(q)
    {
      assert q in blocks && owner[a] == In(q);
    }
    forall a | a in o'
      ensures OwnedRight(o'[a], b', r, c, a)
    {
      if Within(r, a) {
        OwnedWindow(b', r, c, a);
      } else {
        OwnedRange(owner[a], blocks, w, c, a);
        OwnedStays(owner[a], blocks, b', w, r, c, c, a);
      }
    }
    OwnsIntro(o', b', r, c);
  }

  lemma {:induction false} AlignedIs(r: Range)
    ensures Aligned(r) <==> r.lo <= r.hi && r.lo % 8 == 0 && r.hi % 8 == 0
  {
  }

  lemma {:induction false} OwnedRange(o: Owner, blocks: map<nat, Block>, w: Range, c: Range, a: nat)
    requires OwnedRight(o, blocks, w, c, a)
    ensures o == Window ==> Within(w, a)
    ensures o.In? ==> o.p in blocks && Within(Extent(o.p, blocks[o.p]), a)
  {
  }

  // A block changes hands.
  lemma {:induction false} OwnsFlip(owner: map<nat, Owner>, blocks: map<nat, Block>, w: Range, c: Range, p: nat,
      live: bool)
    requires Owns(owner, blocks, w, c) && p in blocks
    ensures Owns(owner, blocks[p := Block(blocks[p].size, live)], w, c)
  {
    hide *;
    OwnsParts(owner, blocks, w, c);
    var b' := blocks[p := Block(blocks[p].size, live)];
    BlockFacts(p, blocks[p]);
    BlockFacts(p, b'[p]);
    forall q, a | q in b' && Within(Extent(q, b'[q]), a)
      ensures a in owner && owner[a] == In(q)
    {
      assert q in blocks && Within(Extent(q, blocks[q]), a);
    }
    forall a | a in owner
      ensures OwnedRight(owner[a], b', w, c, a)
    {
      OwnedStays(owner[a], blocks, b', w, w, c, c, a);
    }
    OwnsIntro(owner, b', w, c);
  }

  ghost function Bytes(r: Range): (s: set<nat>)
    ensures forall a: nat :: a in s <==> Within(r, a)
    ensures r.lo <= r.hi ==> |s| == r.hi - r.lo
    decreases r.hi
  {
    if r.lo < r.hi then Bytes(Range(r.lo, r.hi - 1)) + {r.hi - 1} else {}
  }

  ghost predicate Fresh(owner: map<nat, Owner>, r: Range) {
    r.lo > 0 && Aligned(r) && forall a | Within(r, a) :: a !in owner
  }

  ghost function Grow(owner: map<nat, Owner>, r: Range): map<nat, Owner> {
    map a: nat | a in owner.Keys + Bytes(r) :: if a in owner then owner[a] else Window
  }

  lemma {:induction false} EmptyRange(w: Range)
    requires w.lo == w.hi
    ensures forall a :: !Within(w, a)
  {
  }

  lemma {:induction false} GrowKeys(owner: map<nat, Owner>, r: Range)
    requires Fresh(owner, r)
    ensures Grow(owner, r).Keys == owner.Keys + Bytes(r)
    ensures |Grow(owner, r)| == |owner| + (r.hi - r.lo)
    ensures Aligned(r) && 0 !in Bytes(r)
    ensures forall a | a in owner :: a in Grow(owner, r) && Grow(owner, r)[a] == owner[a]
    ensures forall a | Within(r, a) :: a in Grow(owner, r) && Grow(owner, r)[a] == Window
    ensures forall a: nat | a in Grow(owner, r) && a !in owner :: Within(r, a) && Grow(owner, r)[a] == Window
  {
    assert owner.Keys !! Bytes(r);
    assert |Grow(owner, r)| == |Grow(owner, r).Keys|;
  }

  lemma {:induction false} GrowDomain(owner: map<nat, Owner>, r: Range)
    ensures Grow(owner, r).Keys == owner.Keys + Bytes(r)
  {
  }

  lemma {:induction false} OwnedWindow(blocks: map<nat, Block>, w: Range, c: Range, a: nat)
    requires Within(w, a)
    ensures OwnedRight(Window, blocks, w, c, a)
  {
  }

  // Bytes that had an owner keep it.
  lemma {:induction false} GrowKeeps(owner: map<nat, Owner>, blocks: map<nat, Block>, w: Range, c: Range, r: Range)
    requires Owns(owner, blocks, w, c) && Fresh(owner, r)
    ensures Aligned(c) && 0 !in Grow(owner, r)
    ensures forall p | p in blocks :: BlockOk(p, blocks[p])
    ensures forall a | Within(c, a) :: a in Grow(owner, r) && Grow(owner, r)[a] == Carved
    ensures forall p, a | p in blocks && Within(Extent(p, blocks[p]), a) ::
      a in Grow(owner, r) && Grow(owner, r)[a] == In(p)
  {
    hide *;
    OwnsParts(owner, blocks, w, c);
    GrowKeys(owner, r);
    assert 0 !in owner.Keys + Bytes(r);
  }

  lemma {:induction false} GrowRight(owner: map<nat, Owner>, blocks: map<nat, Block>, w: Range, c: Range, r: Range,
      a: nat)
    requires Owns(owner, blocks, w, c) && w.lo == w.hi && Fresh(owner, r) && a in Grow(owner, r)
    ensures OwnedRight(Grow(owner, r)[a], blocks, r, c, a)
  {
    hide *;
    GrowKeys(owner, r);
    if a in owner {
      OwnsAt(owner, blocks, w, c, a);
      EmptyRange(w);
      OwnedElsewhere(owner[a], blocks, w, r, c, a);
    } else {
      OwnedWindow(blocks, r, c, a);
    }
  }

  lemma {:induction false} OwnsAt(owner: map<nat, Owner>, blocks: map<nat, Block>, w: Range, c: Range, a: nat)
    requires Owns(owner, blocks, w, c) && a in owner
    ensures OwnedRight(owner[a], blocks, w, c, a)
  {
  }

  // malloc's memory becomes the window.
  lemma {:induction false} OwnsGrow(owner: map<nat, Owner>, blocks: map<nat, Block>, w: Range, c: Range, r: Range)
    requires Owns(owner, blocks, w, c) && w.lo == w.hi && Fresh(owner, r)
    ensures Owns(Grow(owner, r), blocks, r, c)
    ensures |Grow(owner, r)| == |owner| + (r.hi - r.lo)
  {
    hide *;
    GrowKeeps(owner, blocks, w, c, r);
    forall a | a in Grow(owner, r)
      ensures OwnedRight(Grow(owner, r)[a], blocks, r, c, a)
    {
      GrowRight(owner, blocks, w, c, r, a);
    }
    GrowKeys(owner, r);
    OwnsIntro(Grow(owner, r), blocks, r, c);
  }

  // ----- Free lists -----

  // The words of memory lead from `head` through `ns` to `end`.
  ghost predicate Linked(mem: map<nat, nat>, head: nat, ns: seq<nat>, end: nat)
    decreases |ns|
  {
    if ns == [] then head == end
    else head == ns[0] && head in mem && Linked(mem, mem[head], ns[1..], end)
  }

  ghost predicate Distinct(ns: seq<nat>) {
    forall i, j | 0 <= i < j < |ns| :: ns[i] != ns[j]
  }

  // A list of exactly the free blocks of `size` bytes.
  ghost predicate ListOk(mem: map<nat, nat>, head: nat, ns: seq<nat>, end: nat, blocks: map<nat, Block>, size: nat) {
    && Linked(mem, head, ns, end)
    && Distinct(ns)
    && forall p :: p in ns <==> p in blocks && blocks[p] == Block(size, false)
  }

  ghost predicate ListsOk(mem: map<nat, nat>, heads: seq<nat>, nodes: seq<seq<nat>>, blocks: map<nat, Block>) {
    && |heads| == |nodes| == LISTS
    && forall i | 0 <= i < LISTS :: ListOk(mem, heads[i], nodes[i], 0, blocks, 8 * (i + 1))
  }

  // Every list but number `k` is in order; that one is in order up to `end`.
  ghost predicate ListsOkTo(mem: map<nat, nat>, heads: seq<nat>, nodes: seq<seq<nat>>, blocks: map<nat, Block>,
      k: nat, end: nat) {
    && k < LISTS && |heads| == |nodes| == LISTS
    && forall i | 0 <= i < LISTS :: ListOk(mem, heads[i], nodes[i], if i == k then end else 0, blocks, 8 * (i + 1))
  }

  lemma {:induction false} LinkedWrite(mem: map<nat, nat>, head: nat, ns: seq<nat>, end: nat, a: nat, v: nat)
    requires Linked(mem, head, ns, end) && a !in ns
    ensures Linked(mem[a := v], head, ns, end)
    decreases |ns|
  {
    if ns != [] {
      LinkedWrite(mem, mem[head], ns[1..], end, a, v);
    }
  }

  lemma {:induction false} LinkedAppend(mem: map<nat, nat>, head: nat, ns: seq<nat>, a: nat, v: nat)
    requires Linked(mem, head, ns, a) && a !in ns
    ensures Linked(mem[a := v], head, ns + [a], v)
    decreases |ns|
  {
    if ns == [] {
      assert Linked(mem[a := v], v, [], v);
    } else {
      LinkedAppend(mem, mem[head], ns[1..], a, v);
      assert (ns + [a])[1..] == ns[1..] + [a];
    }
  }

  // A write into memory that is not a free block of the list's size leaves the list alone.
  lemma {:induction false} ListWrite(mem: map<nat, nat>, head: nat, ns: seq<nat>, end: nat, blocks: map<nat, Block>,
      size: nat, a: nat, v: nat)
    requires ListOk(mem, head, ns, end, blocks, size)
    requires a in blocks ==> blocks[a] != Block(size, false)
    ensures ListOk(mem[a := v], head, ns, end, blocks, size)
  {
    LinkedWrite(mem, head, ns, end, a, v);
  }

  // A block that is not free in this size, before and after, does not matter to the list.
  lemma {:induction false} ListOther(mem: map<nat, nat>, head: nat, ns: seq<nat>, end: nat,
      blocks: map<nat, Block>, blocks': map<nat, Block>, size: nat, a: nat)
    requires ListOk(mem, head, ns, end, blocks, size)
    requires forall p | p != a :: (p in blocks <==> p in blocks') && (p in blocks ==> blocks'[p] == blocks[p])
    requires a in blocks ==> blocks[a] != Block(size, false)
    requires a in blocks' ==> blocks'[a] != Block(size, false)
    ensures ListOk(mem, head, ns, end, blocks', size)
  {
  }

  lemma {:induction false} ListPush(mem: map<nat, nat>, head: nat, ns: seq<nat>, blocks: map<nat, Block>, size: nat,
      p: nat)
    requires ListOk(mem, head, ns, 0, blocks, size)
    requires p in blocks ==> blocks[p] != Block(size, false)
    ensures ListOk(mem[p := head], p, [p] + ns, 0, blocks[p := Block(size, false)], size)
  {
    LinkedWrite(mem, head, ns, 0, p, head);
    assert ([p] + ns)[1..] == ns;
  }

  lemma {:induction false} ListAppend(mem: map<nat, nat>, head: nat, ns: seq<nat>, blocks: map<nat, Block>, size: nat,
      p: nat, v: nat)
    requires ListOk(mem, head, ns, p, blocks, size)
    requires p in blocks ==> blocks[p] != Block(size, false)
    ensures ListOk(mem[p := v], head, ns + [p], v, blocks[p := Block(size, false)], size)
  {
    LinkedAppend(mem, head, ns, p, v);
  }

  // The first block of a list leaves it, whatever becomes of it.
  lemma {:induction false} ListPop(mem: map<nat, nat>, head: nat, ns: seq<nat>, blocks: map<nat, Block>,
      blocks': map<nat, Block>, size: nat)
    requires ListOk(mem, head, ns, 0, blocks, size) && ns != []
    requires forall p | p != head :: (p in blocks <==> p in blocks') && (p in blocks ==> blocks'[p] == blocks[p])
    requires head in blocks' ==> blocks'[head] != Block(size, false)
    ensures head == ns[0] && head in mem && head in blocks && blocks[head] == Block(size, false)
    ensures ListOk(mem, mem[head], ns[1..], 0, blocks', size)
  {
    assert ns[0] in ns;
    forall p
      ensures p in ns[1..] <==> p in ns && p != head
    {
      if p in ns && p != head {
        var i :| 0 <= i < |ns| && ns[i] == p;
        assert ns[1..][i - 1] == p;
      }
    }
  }

  // ----- Steps on all the lists -----

  // Block `p` is freed (or cut and freed) into list `k`.
  lemma {:induction false} ListsPush(mem: map<nat, nat>, heads: seq<nat>, nodes: seq<seq<nat>>, blocks: map<nat,
      Block>, k: nat, p: nat)
    requires ListsOk(mem, heads, nodes, blocks) && k < LISTS
    requires p in blocks ==> blocks[p].live
    ensures ListsOk(mem[p := heads[k]], heads[k := p], nodes[k := [p] + nodes[k]],
      blocks[p := Block(8 * (k + 1), false)])
  {
    var b', heads', nodes' := blocks[p := Block(8 * (k + 1), false)], heads[k := p], nodes[k := [p] + nodes[k]];
    hide Linked;
    hide Distinct;
    forall i | 0 <= i < LISTS
      ensures ListOk(mem[p := heads[k]], heads'[i], nodes'[i], 0, b', 8 * (i + 1))
    {
      assert ListOk(mem, heads[i], nodes[i], 0, blocks, 8 * (i + 1));
      if i == k {
        ListPush(mem, heads[k], nodes[k], blocks, 8 * (k + 1), p);
      } else {
        ListWrite(mem, heads[i], nodes[i], 0, blocks, 8 * (i + 1), p, heads[k]);
        ListOther(mem[p := heads[k]], heads[i], nodes[i], 0, blocks, b', 8 * (i + 1), p);
      }
    }
  }

  // The first block of list `k` is taken off and is `blocks'` what it becomes.
  lemma {:induction false} ListsPop(mem: map<nat, nat>, heads: seq<nat>, nodes: seq<seq<nat>>, blocks: map<nat,
      Block>, blocks': map<nat, Block>, k: nat)
    requires ListsOk(mem, heads, nodes, blocks) && k < LISTS && nodes[k] != []
    requires forall p | p != heads[k] :: (p in blocks <==> p in blocks') && (p in blocks ==> blocks'[p] == blocks[p])
    requires heads[k] in blocks' ==> blocks'[heads[k]].live
    ensures heads[k] == nodes[k][0] && heads[k] in mem && heads[k] in blocks
      && blocks[heads[k]] == Block(8 * (k + 1), false)
    ensures ListsOk(mem, heads[k := mem[heads[k]]], nodes[k := nodes[k][1..]], blocks')
  {
    hide Linked;
    hide Distinct;
    assert ListOk(mem, heads[k], nodes[k], 0, blocks, 8 * (k + 1));
    ListPop(mem, heads[k], nodes[k], blocks, blocks', 8 * (k + 1));
    forall i | 0 <= i < LISTS && i != k
      ensures ListOk(mem, heads[i], nodes[i], 0, blocks', 8 * (i + 1))
    {
      assert ListOk(mem, heads[i], nodes[i], 0, blocks, 8 * (i + 1));
      ListOther(mem, heads[i], nodes[i], 0, blocks, blocks', 8 * (i + 1), heads[k]);
    }
  }

  // A list head is null exactly when the list is empty.
  lemma {:induction false} HeadNull(owner: map<nat, Owner>, w: Range, c: Range,
      mem: map<nat, nat>, heads: seq<nat>, nodes: seq<seq<nat>>, blocks: map<nat, Block>, k: nat)
    requires Owns(owner, blocks, w, c) && ListsOk(mem, heads, nodes, blocks) && k < LISTS
    ensures heads[k] == 0 <==> nodes[k] == []
  {
    assert ListOk(mem, heads[k], nodes[k], 0, blocks, 8 * (k + 1));
    if nodes[k] != [] {
      assert nodes[k][0] in nodes[k];
      assert BlockOk(nodes[k][0], blocks[nodes[k][0]]);
    }
  }

  // A new live block is of no concern to the lists.
  lemma {:induction false} ListsLive(mem: map<nat, nat>, heads: seq<nat>, nodes: seq<seq<nat>>, blocks: map<nat,
      Block>, p: nat, size: nat)
    requires ListsOk(mem, heads, nodes, blocks) && p !in blocks
    ensures ListsOk(mem, heads, nodes, blocks[p := Block(size, true)])
  {
    hide Linked;
    hide Distinct;
    forall i | 0 <= i < LISTS
      ensures ListOk(mem, heads[i], nodes[i], 0, blocks[p := Block(size, true)], 8 * (i + 1))
    {
      assert ListOk(mem, heads[i], nodes[i], 0, blocks, 8 * (i + 1));
    }
  }

  // Opening an empty list at `p`.
  lemma {:induction false} ListsOpen(mem: map<nat, nat>, heads: seq<nat>, nodes: seq<seq<nat>>, blocks: map<nat,
      Block>, k: nat, p: nat)
    requires ListsOk(mem, heads, nodes, blocks) && k < LISTS && nodes[k] == []
    ensures ListsOkTo(mem, heads[k := p], nodes, blocks, k, p)
  {
    hide Distinct;
    forall i | 0 <= i < LISTS
      ensures ListOk(mem, heads[k := p][i], nodes[i], if i == k then p else 0, blocks, 8 * (i + 1))
    {
      assert ListOk(mem, heads[i], nodes[i], 0, blocks, 8 * (i + 1));
    }
  }

  // The open list grows by a new block `p` at its end, which links on to `v`.
  lemma {:induction false} ListsGrow(mem: map<nat, nat>, heads: seq<nat>, nodes: seq<seq<nat>>, blocks: map<nat,
      Block>, k: nat, p: nat, v: nat)
    requires ListsOkTo(mem, heads, nodes, blocks, k, p) && p !in blocks
    ensures ListsOkTo(mem[p := v], heads, nodes[k := nodes[k] + [p]], blocks[p := Block(8 * (k + 1), false)], k, v)
  {
    var b' := blocks[p := Block(8 * (k + 1), false)];
    hide Linked;
    hide Distinct;
    forall i | 0 <= i < LISTS
      ensures ListOk(mem[p := v], heads[i], nodes[k := nodes[k] + [p]][i], if i == k then v else 0, b', 8 * (i + 1))
    {
      assert ListOk(mem, heads[i], nodes[i], if i == k then p else 0, blocks, 8 * (i + 1));
      if i == k {
        ListAppend(mem, heads[k], nodes[k], blocks, 8 * (k + 1), p, v);
      } else {
        ListWrite(mem, heads[i], nodes[i], 0, blocks, 8 * (i + 1), p, v);
        ListOther(mem[p := v], heads[i], nodes[i], 0, blocks, b', 8 * (i + 1), p);
      }
    }
  }

  lemma {:induction false} ListsClose(mem: map<nat, nat>, heads: seq<nat>, nodes: seq<seq<nat>>, blocks: map<nat,
      Block>, k: nat)
    requires ListsOkTo(mem, heads, nodes, blocks, k, 0)
    ensures ListsOk(mem, heads, nodes, blocks)
  {
    hide ListOk;
  }

  // A write into a live block does not touch the lists.
  lemma {:induction false} ListsWrite(owner: map<nat, Owner>, w: Range, c: Range,
      mem: map<nat, nat>, heads: seq<nat>, nodes: seq<seq<nat>>, blocks: map<nat, Block>, p: nat, a: nat, v: nat)
    requires Owns(owner, blocks, w, c) && ListsOk(mem, heads, nodes, blocks)
    requires p in blocks && blocks[p].live && Within(Extent(p, blocks[p]), a)
    ensures ListsOk(mem[a := v], heads, nodes, blocks)
  {
    hide Linked;
    hide Distinct;
    if a in blocks {
      assert BlockOk(a, blocks[a]);
      assert owner[a] == In(a) && owner[a] == In(p);
    }
    forall i | 0 <= i < LISTS
      ensures ListOk(mem[a := v], heads[i], nodes[i], 0, blocks, 8 * (i + 1))
    {
      assert ListOk(mem, heads[i], nodes[i], 0, blocks, 8 * (i + 1));
      ListWrite(mem, heads[i], nodes[i], 0, blocks, 8 * (i + 1), a, v);
    }
  }

  // The blocks in use and their sizes.
  ghost function InUse(blocks: map<nat, Block>): map<nat, nat> {
    map p | p in blocks && blocks[p].live :: blocks[p].size
  }

  lemma {:induction false} InUseOther(blocks: map<nat, Block>, p: nat, size: nat)
    requires p in blocks ==> !blocks[p].live
    ensures InUse(blocks[p := Block(size, false)]) == InUse(blocks)
    ensures InUse(blocks - {p}) == InUse(blocks)
    ensures InUse(blocks[p := Block(size, true)]) == InUse(blocks)[p := size]
  {
  }

  lemma {:induction false} InUseFree(blocks: map<nat, Block>, p: nat)
    requires p in InUse(blocks)
    ensures p in blocks && blocks[p] == Block(InUse(blocks)[p], true)
    ensures InUse(blocks[p := Block(InUse(blocks)[p], false)]) == InUse(blocks) - {p}
  {
  }

  // The words inside the blocks `used` are as they were.
  ghost predicate Kept(used: map<nat, nat>, m0: map<nat, nat>, m1: map<nat, nat>) {
    forall p, a | p in used && Within(Range(p, p + used[p]), a) ::
        (a in m0 <==> a in m1) && (a in m0 ==> m1[a] == m0[a])
  }

  lemma {:induction false} KeptSame(used: map<nat, nat>, m: map<nat, nat>)
    ensures Kept(used, m, m)
  {
  }

  lemma {:induction false} KeptTwice(used: map<nat, nat>, m0: map<nat, nat>, m1: map<nat, nat>, m2: map<nat, nat>)
    requires Kept(used, m0, m1) && Kept(used, m1, m2)
    ensures Kept(used, m0, m2)
  {
  }

  lemma {:induction false} KeptLess(used: map<nat, nat>, p: nat, size: nat, m0: map<nat, nat>, m1: map<nat, nat>)
    requires p !in used
    ensures used[p := size] - {p} == used
    ensures Kept(used[p := size], m0, m1) ==> Kept(used, m0, m1)
  {
    if Kept(used[p := size], m0, m1) {
      forall q, a | q in used && Within(Range(q, q + used[q]), a)
        ensures (a in m0 <==> a in m1) && (a in m0 ==> m1[a] == m0[a])
      {
        assert q in used[p := size] && used[p := size][q] == used[q];
      }
    }
  }

  // The first word of a block is in no other block.
  lemma {:induction false} KeptPush(owner: map<nat, Owner>, blocks: map<nat, Block>, w: Range, c: Range, m: map<nat,
      nat>, p: nat, v: nat)
    requires Owns(owner, blocks, w, c) && p in blocks
    ensures Kept(InUse(blocks) - {p}, m, m[p := v])
  {
    hide Owns;
    hide InUse;
    var used, m' := InUse(blocks) - {p}, m[p := v];
    StartOwned(owner, blocks, w, c, p);
    forall q, a | q in used && Within(Range(q, q + used[q]), a)
      ensures (a in m <==> a in m') && (a in m ==> m'[a] == m[a])
    {
      InsideOwned(owner, blocks, w, c, q, a);
    }
  }

  lemma {:induction false} StartOwned(owner: map<nat, Owner>, blocks: map<nat, Block>, w: Range, c: Range, p: nat)
    requires Owns(owner, blocks, w, c) && p in blocks
    ensures p in owner && owner[p] == In(p)
  {
    assert BlockOk(p, blocks[p]) && Within(Extent(p, blocks[p]), p);
  }

  lemma {:induction false} InsideOwned(owner: map<nat, Owner>, blocks: map<nat, Block>, w: Range, c: Range, q: nat,
      a: nat)
    requires Owns(owner, blocks, w, c) && q in InUse(blocks) && Within(Range(q, q + InUse(blocks)[q]), a)
    ensures a in owner && owner[a] == In(q)
  {
    assert Within(Extent(q, blocks[q]), a);
  }

  // Nor is memory that is being cut.
  lemma {:induction false} KeptCut(owner: map<nat, Owner>, blocks: map<nat, Block>, w: Range, c: Range, m: map<nat,
      nat>, v: nat)
    requires Owns(owner, blocks, w, c) && c.lo < c.hi
    ensures Kept(InUse(blocks), m, m[c.lo := v])
  {
    var used, m' := InUse(blocks), m[c.lo := v];
    assert Within(c, c.lo);
    forall q, a | q in used && Within(Range(q, q + used[q]), a)
      ensures (a in m <==> a in m') && (a in m ==> m'[a] == m[a])
    {
      InsideOwned(owner, blocks, w, c, q, a);
    }
  }

  // `count` blocks of `n` bytes, from `p` on.
  function Cells(p: nat, n: nat, count: nat): seq<nat>
    decreases count
  {
    if count == 0 then [] else [p] + Cells(p + n, n, count - 1)
  }

  lemma CellsNext(done: seq<nat>, p: nat, n: nat, count: nat)
    ensures count > 0 ==> done + Cells(p, n, count) == (done + [p]) + Cells(p + n, n, count - 1)
    ensures done + Cells(p, n, 0) == done
    ensures [] + Cells(p, n, count) == Cells(p, n, count)
  {
  }

  // A size the lists serve.
  predicate ListSize(n: nat) { 8 <= n <= 128 && n % 8 == 0 }

  // Bytes asked of malloc for `nobjs` blocks of `size` bytes.
  function ToGet(size: nat, nobjs: nat, heapSize: nat): nat { 2 * (size * nobjs) + RoundUp(heapSize / 16) }

  // What malloc may answer when asked for `size` bytes: null, or memory the pool does not have.
  ghost predicate Answer(owner: map<nat, Owner>, m: nat, size: nat) {
    m != 0 ==> Fresh(owner, Range(m, m + size))
  }

  lemma {:induction false} AnswerNull(owner: map<nat, Owner>, size: nat)
    ensures Answer(owner, 0, size)
  {
  }

  lemma {:induction false} AnswerKeeps(owner: map<nat, Owner>, owner': map<nat, Owner>, m: nat, size: nat)
    requires Answer(owner, m, size) && m != 0 && owner'.Keys == owner.Keys
    ensures Fresh(owner', Range(m, m + size))
  {
    hide Aligned;
    assert forall a: nat | Within(Range(m, m + size), a) :: a !in owner'.Keys;
  }

  // Some list has a block of at least `size` bytes.
  ghost predicate Spare(nodes: seq<seq<nat>>, size: nat)
    requires size > 0
  {
    exists k :: ListIndex(size) <= k < |nodes| && nodes[k] != []
  }

  // The first list from number `k` on that has a block.
  function FirstFrom(nodes: seq<seq<nat>>, k: nat): (r: nat)
    requires k <= |nodes|
    ensures k <= r <= |nodes| && forall j | k <= j < r :: nodes[j] == []
    ensures r < |nodes| ==> nodes[r] != []
    decreases |nodes| - k
  {
    if k == |nodes| || nodes[k] != [] then k else FirstFrom(nodes, k + 1)
  }

  lemma {:induction false} FirstFromIs(nodes: seq<seq<nat>>, k: nat, j: nat)
    requires k <= j <= |nodes| && (forall i | k <= i < j :: nodes[i] == []) && (j < |nodes| ==> nodes[j] != [])
    ensures FirstFrom(nodes, k) == j
  {
  }

  lemma {:induction false} SpareFirst(nodes: seq<seq<nat>>, size: nat)
    requires size > 0 && ListIndex(size) <= |nodes|
    ensures Spare(nodes, size) <==> FirstFrom(nodes, ListIndex(size)) < |nodes|
  {
  }

  function Tail(ps: seq<nat>): seq<nat> { if ps == [] then [] else ps[1..] }

  // What is left of a window goes to the list of its size.
  function Stocked(nodes: seq<seq<nat>>, lo: nat, hi: nat): seq<seq<nat>> {
    if 0 < hi - lo && ListIndex(hi - lo) < |nodes|
    then nodes[ListIndex(hi - lo) := [lo] + nodes[ListIndex(hi - lo)]]
    else nodes
  }

  // A list for smaller blocks does not count.
  lemma {:induction false} StockedRest(nodes: seq<seq<nat>>, lo: nat, hi: nat, size: nat)
    requires ListSize(size) && |nodes| == LISTS && hi - lo < size && (hi - lo) % 8 == 0
    ensures |Stocked(nodes, lo, hi)| == LISTS && ListIndex(size) < LISTS
    ensures forall k | ListIndex(size) <= k < LISTS :: Stocked(nodes, lo, hi)[k] == nodes[k]
    ensures FirstFrom(Stocked(nodes, lo, hi), ListIndex(size)) == FirstFrom(nodes, ListIndex(size))
    ensures Spare(Stocked(nodes, lo, hi), size) == Spare(nodes, size)
  {
    var nodes' := Stocked(nodes, lo, hi);
    forall k | ListIndex(size) <= k < LISTS
      ensures nodes'[k] == nodes[k]
    {
    }
    FirstFromIs(nodes', ListIndex(size), FirstFrom(nodes, ListIndex(size)));
    SpareFirst(nodes, size);
    SpareFirst(nodes', size);
  }

  // The memory that blocks of `size` bytes are cut from: the window when it has one, else what malloc gives,
  // else the first block of the first list for the size or more, else what the second malloc gives.
  ghost predicate Source(nodes: seq<seq<nat>>, lo: nat, hi: nat, size: nat, get: nat, m1: nat, m2: nat, p: nat,
      end: nat)
    requires ListSize(size) && |nodes| == LISTS
  {
    var k := FirstFrom(nodes, ListIndex(size));
    if size <= hi - lo then p == lo && end == hi
    else if m1 != 0 then p == m1 && end == m1 + get
    else if k < LISTS then p == nodes[k][0] && end == p + 8 * (k + 1)
    else p == m2 && end == m2 + get
  }

  // The lists then: the rest of the old window is on its list, a block that became the window is not.
  function Restocked(nodes: seq<seq<nat>>, lo: nat, hi: nat, size: nat, m1: nat): (r: seq<seq<nat>>)
    requires ListSize(size) && |nodes| == LISTS
    ensures |r| == LISTS
  {
    var k := FirstFrom(nodes, ListIndex(size));
    if size <= hi - lo then nodes
    else if m1 == 0 && k < LISTS then Stocked(nodes, lo, hi)[k := Tail(nodes[k])]
    else Stocked(nodes, lo, hi)
  }

  // As many blocks of `size` bytes as there are in `bytes`, up to `n`.
  function Count(n: nat, size: nat, bytes: int): nat
    requires size > 0
  {
    if size * n <= bytes then n else if bytes < 0 then 0 else bytes / size
  }

  // The state after a refill of the list for `n` bytes, which was empty: as many blocks as the memory they
  // are cut from has, up to 20, the first for the caller and the others on the list.
  ghost predicate Refilled(n: nat, nodes: seq<seq<nat>>, lo: nat, hi: nat, heap: nat, m1: nat, m2: nat, ok: bool,
      p: nat, nodes': seq<seq<nat>>, lo': nat, hi': nat, heap': nat)
    requires ListSize(n) && |nodes| == LISTS
  {
    && heap' == heap + (if !ok || n <= hi - lo || (m1 == 0 && Spare(nodes, n)) then 0 else ToGet(n, BATCH, heap))
    && if !ok then nodes' == Restocked(nodes, lo, hi, n, m1) && lo' == hi' == 0
       else
         var nobjs := Count(BATCH, n, hi' - p);
         && Source(nodes, lo, hi, n, ToGet(n, BATCH, heap), m1, m2, p, hi')
         && nobjs >= 1 && lo' == p + n * nobjs
         && nodes' == Restocked(nodes, lo, hi, n, m1)[ListIndex(n) := Cells(p + n, n, nobjs - 1)]
  }

  lemma {:induction false} RefilledIs(n: nat, nodes: seq<seq<nat>>, lo: nat, hi: nat, heap: nat, m1: nat, m2: nat,
      ok: bool, p: nat, nodes': seq<seq<nat>>, lo': nat, hi': nat, heap': nat)
    requires ListSize(n) && |nodes| == |nodes'| == LISTS && ListIndex(n) < LISTS && nodes'[ListIndex(n)] == []
    requires nodes' == Restocked(nodes, lo, hi, n, m1)
    requires heap' == heap + if !ok || n <= hi - lo || (m1 == 0 && Spare(nodes, n)) then 0 else ToGet(n, BATCH, heap)
    ensures !ok && lo' == hi' == 0 ==>
      Refilled(n, nodes, lo, hi, heap, m1, m2, ok, p, nodes', lo', hi', heap')
    ensures var nobjs := Count(BATCH, n, hi' - p);
      ok && Source(nodes, lo, hi, n, ToGet(n, BATCH, heap), m1, m2, p, hi') && nobjs >= 1
        && lo' == p + Times(n, nobjs) ==>
        && (nobjs == 1 ==> Refilled(n, nodes, lo, hi, heap, m1, m2, ok, p, nodes', lo', hi', heap'))
        && Refilled(n, nodes, lo, hi, heap, m1, m2, ok, p, nodes'[ListIndex(n) := Cells(p + n, n, nobjs - 1)], lo',
             hi', heap')
  {
    hide Source;
    hide Restocked;
    assert Cells(p + n, n, 0) == [] && nodes'[ListIndex(n) := []] == nodes';
  }

  lemma {:induction false} CountIs(n: nat, size: nat, bytes: int)
    requires size > 0
    ensures Count(n, size, bytes) == if Times(size, n) <= bytes then n else if bytes < 0 then 0 else bytes / size
  {
  }

  lemma {:induction false} StockedIs(nodes: seq<seq<nat>>, lo: nat, hi: nat)
    ensures hi <= lo ==> Stocked(nodes, lo, hi) == nodes
    ensures 0 < hi - lo && ListIndex(hi - lo) < |nodes| ==>
      Stocked(nodes, lo, hi) == nodes[ListIndex(hi - lo) := [lo] + nodes[ListIndex(hi - lo)]]
  {
  }

  lemma {:induction false} SourceIs(nodes: seq<seq<nat>>, lo: nat, hi: nat, size: nat, get: nat, m1: nat, m2: nat)
    requires ListSize(size) && |nodes| == LISTS
    ensures ListIndex(size) < LISTS
    ensures var k := FirstFrom(nodes, ListIndex(size));
      && (size <= hi - lo ==> Restocked(nodes, lo, hi, size, m1) == nodes)
      && (size > hi - lo && m1 != 0 ==> Restocked(nodes, lo, hi, size, m1) == Stocked(nodes, lo, hi))
      && (size > hi - lo && k >= LISTS ==> Restocked(nodes, lo, hi, size, m1) == Stocked(nodes, lo, hi))
      && (size > hi - lo && m1 == 0 && k < LISTS ==>
            |Stocked(nodes, lo, hi)| == LISTS && nodes[k] != []
            && Restocked(nodes, lo, hi, size, m1) == Stocked(nodes, lo, hi)[k := nodes[k][1..]])
    ensures forall p: nat, end: nat :: Source(nodes, lo, hi, size, get, m1, m2, p, end) <==>
      var k := FirstFrom(nodes, ListIndex(size));
      if size <= hi - lo then p == lo && end == hi
      else if m1 != 0 then p == m1 && end == m1 + get
      else if k < LISTS then p == nodes[k][0] && end == p + 8 * (k + 1)
      else p == m2 && end == m2 + get
  {
    hide Stocked;
    StockedSize(nodes, lo, hi);
  }

  lemma StockedSize(nodes: seq<seq<nat>>, lo: nat, hi: nat)
    ensures |Stocked(nodes, lo, hi)| == |nodes|
  {
  }

  class Allocator {
    const freeList: array<nat>       // list heads, 0 when empty
    var mem: map<nat, nat>           // the words of memory
    var startFree: nat
    var endFree: nat
    var heapSize: nat
    ghost var owner: map<nat, Owner>
    ghost var blocks: map<nat, Block>
    ghost var nodes: seq<seq<nat>>
    ghost var cut: Range             // memory cut from the window and not yet a block

    ghost predicate Inv()
      reads this, freeList
    {
      && freeList.Length == LISTS
      && Owns(owner, blocks, Range(startFree, endFree), cut)
      && ListsOk(mem, freeList[..], nodes, blocks)
      && heapSize == |owner| && heapSize % 8 == 0
    }

    ghost predicate Valid()
      reads this, freeList
    {
      Inv() && cut.lo == cut.hi
    }

    lemma {:induction false} InvParts()
      requires Inv()
      ensures freeList.Length == LISTS && |nodes| == LISTS
      ensures Owns(owner, blocks, Range(startFree, endFree), cut)
      ensures ListsOk(mem, freeList[..], nodes, blocks)
      ensures heapSize == |owner| && heapSize % 8 == 0
    {
    }

    lemma {:induction false} InvIntro()
      requires freeList.Length == LISTS
      requires Owns(owner, blocks, Range(startFree, endFree), cut)
      requires ListsOk(mem, freeList[..], nodes, blocks)
      requires heapSize == |owner| && heapSize % 8 == 0
      ensures Inv() && (cut.lo == cut.hi ==> Valid())
    {
    }

    lemma {:induction false} ValidInv()
      requires Valid()
      ensures Inv() && cut.lo == cut.hi
    {
    }

    lemma {:induction false} ValidIntro()
      requires Inv() && cut.lo == cut.hi
      ensures Valid()
    {
    }

    constructor ()
      ensures Valid() && fresh(freeList) && blocks == map[] && heapSize == startFree == endFree == 0 && owner == map[]
      ensures |nodes| == LISTS && forall k | 0 <= k < LISTS :: nodes[k] == []
    {
      freeList := new nat[16](_ => 0);
      mem, startFree, endFree, heapSize := map[], 0, 0, 0;
      owner, blocks, nodes, cut := map[], map[], seq(16, _ => []), Range(0, 0);
      new;
      forall i | 0 <= i < LISTS
        ensures ListOk(mem, freeList[..][i], nodes[i], 0, blocks, 8 * (i + 1))
      {
      }
    }

    // Link block `p` in front of list `k`: the allocator has it now.
    method Push(k: nat, p: nat)
      requires Inv() && k < LISTS && p in blocks && blocks[p] == Block(8 * (k + 1), true)
      modifies freeList, this`mem, this`blocks, this`nodes
      ensures Inv()
      ensures blocks == old(blocks)[p := Block(8 * (k + 1), false)]
      ensures nodes == old(nodes)[k := [p] + old(nodes)[k]]
      ensures Kept(old(InUse(blocks)) - {p}, old(mem), mem)
    {
      hide *;
      InvParts();
      KeptPush(owner, blocks, Range(startFree, endFree), cut, mem, p, freeList[k]);
      ghost var heads := freeList[..];
      ListsPush(mem, heads, nodes, blocks, k, p);
      OwnsFlip(owner, blocks, Range(startFree, endFree), cut, p, false);
      mem := mem[p := freeList[k]];
      freeList[k] := p;
      assert freeList[..] == heads[k := p];
      blocks, nodes := blocks[p := Block(8 * (k + 1), false)], nodes[k := [p] + nodes[k]];
      InvIntro();
    }

    // Unlink the first block of list `k`: the caller has it now.
    method Take(k: nat) returns (p: nat)
      requires Inv() && k < LISTS && nodes[k] != []
      modifies freeList, this`blocks, this`nodes
      ensures Inv()
      ensures freeList.Length == LISTS && p == old(freeList[k]) == old(nodes)[k][0]
      ensures p in old(blocks) && old(blocks)[p] == Block(8 * (k + 1), false)
      ensures blocks == old(blocks)[p := Block(8 * (k + 1), true)]
      ensures nodes == old(nodes)[k := old(nodes)[k][1..]]
    {
      hide *;
      InvParts();
      p := freeList[k];
      ghost var heads, blocks' := freeList[..], blocks[p := Block(8 * (k + 1), true)];
      ListsPop(mem, heads, nodes, blocks, blocks', k);
      OwnsFlip(owner, blocks, Range(startFree, endFree), cut, p, true);
      freeList[k] := mem[p];
      assert freeList[..] == heads[k := mem[p]];
      blocks, nodes := blocks', nodes[k := nodes[k][1..]];
      InvIntro();
    }

    // The first block of list `k` becomes the window, which was empty.
    method Recover(k: nat)
      requires Valid() && k < LISTS && nodes[k] != [] && startFree == endFree
      modifies freeList, this`blocks, this`nodes, this`owner, this`startFree, this`endFree
      ensures Valid()
      ensures startFree == old(nodes)[k][0] && endFree == startFree + 8 * (k + 1)
      ensures InUse(blocks) == old(InUse(blocks))
      ensures owner.Keys == old(owner).Keys
      ensures nodes == old(nodes)[k := old(nodes)[k][1..]]
    {
      hide *;
      ValidInv();
      InvParts();
      var p: nat := freeList[k];
      ghost var heads := freeList[..];
      ListsPop(mem, heads, nodes, blocks, blocks - {p}, k);
      OwnsUnblock(owner, blocks, Range(startFree, endFree), cut, p);
      InUseOther(blocks, p, 0);
      ExtentIs(p, blocks[p]);
      freeList[k] := mem[p];
      assert freeList[..] == heads[k := mem[p]];
      owner := Give(owner, Range(p, p + 8 * (k + 1)), Window);
      startFree := p;
      endFree := startFree + 8 * (k + 1);
      blocks, nodes := blocks - {p}, nodes[k := nodes[k][1..]];
      SameKeys(owner, old(owner));
      InvIntro();
    }

    // _S_start_free += k
    method Carve(k: nat) returns (p: nat)
      requires Valid() && 8 <= k <= endFree - startFree && k % 8 == 0
      modifies this`startFree, this`owner, this`cut
      ensures Inv() && cut == Range(p, p + k) && p > 0 && p == old(startFree) && startFree == p + k
      ensures owner.Keys == old(owner).Keys
    {
      hide *;
      ValidInv();
      InvParts();
      OwnsCarve(owner, blocks, Range(startFree, endFree), cut, k);
      CarveNotNull(owner, blocks, Range(startFree, endFree), cut);
      p := startFree;
      startFree := startFree + k;
      owner := Give(owner, Range(p, p + k), Carved);
      cut := Range(p, p + k);
      SameKeys(owner, old(owner));
      InvIntro();
    }

    // The first `size` bytes of the cut memory are a block in use.
    ghost method Make(size: nat)
      requires Inv() && ListSize(size) && size <= cut.hi - cut.lo
      modifies this`owner, this`blocks, this`cut
      ensures Inv() && cut == Range(old(cut).lo + size, old(cut).hi)
      ensures old(cut).lo !in old(blocks) && blocks == old(blocks)[old(cut).lo := Block(size, true)]
      ensures owner.Keys == old(owner).Keys
    {
      hide *;
      InvParts();
      ListSizeIs(size);
      var p := cut.lo;
      OwnsBlock(owner, blocks, Range(startFree, endFree), cut, Block(size, true));
      ListsLive(mem, freeList[..], nodes, blocks, p, size);
      owner, blocks := Give(owner, Range(p, p + size), In(p)), blocks[p := Block(size, true)];
      cut := Range(p + size, cut.hi);
      SameKeys(owner, old(owner));
      InvIntro();
    }

    // The leftover of the window, too small for a block of `size`, is exactly one block of another list.
    method Leftover(size: nat)
      requires Valid() && ListSize(size) && 0 < endFree - startFree < size
      modifies freeList, this`mem, this`blocks, this`nodes, this`owner, this`startFree, this`cut
      ensures Valid() && startFree == endFree
      ensures InUse(blocks) == old(InUse(blocks)) && Kept(InUse(blocks), old(mem), mem)
      ensures owner.Keys == old(owner).Keys
      ensures ListSize(old(endFree - startFree)) && ListIndex(old(endFree - startFree)) < ListIndex(size)
      ensures nodes == old(nodes)[ListIndex(old(endFree - startFree)) :=
                                  [old(startFree)] + old(nodes)[ListIndex(old(endFree - startFree))]]
    {
      hide *;
      ValidInv();
      InvParts();
      WindowAligned(owner, blocks, Range(startFree, endFree), cut);
      ListSizeIs(size);
      var left := endFree - startFree;
      ListSizeIs(left);
      ghost var before := blocks;
      var p := Carve(left);
      Make(left);
      InUseOther(before, p, left);
      InUseOf(before, p);
      KeptLess(InUse(before), p, left, mem, mem);
      Push(ListIndex(left), p);
      assert blocks == before[p := Block(left, false)];
      ValidIntro();
    }

    // malloc's memory becomes the window.
    method Obtain(m: nat, size: nat)
      requires Valid() && startFree == endFree && size % 8 == 0
      requires Fresh(owner, Range(m, m + size))
      modifies this`owner, this`startFree, this`endFree, this`heapSize
      ensures Valid() && startFree == m && endFree == m + size && heapSize == old(heapSize) + size
      ensures owner.Keys == old(owner).Keys + Bytes(Range(m, m + size))
    {
      hide *;
      ValidInv();
      InvParts();
      OwnsGrow(owner, blocks, Range(startFree, endFree), cut, Range(m, m + size));
      GrowDomain(owner, Range(m, m + size));
      owner := Grow(owner, Range(m, m + size));
      startFree := m;
      heapSize := heapSize + size;
      endFree := m + size;
      InvIntro();
    }

    // malloc has failed and no list can serve: the window is empty before the second attempt.
    method Exhausted()
      requires Valid() && startFree == endFree
      modifies this`startFree, this`endFree
      ensures Valid() && startFree == endFree == 0
    {
      hide *;
      ValidInv();
      InvParts();
      OwnsEmpty(owner, blocks, Range(startFree, endFree), Range(0, 0), cut);
      startFree, endFree := 0, 0;
      InvIntro();
    }

    // The first list from `size` on that is not empty, if any.
    method Search(size: nat) returns (i: nat)
      requires Valid() && ListSize(size)
      ensures size <= i && i % 8 == 0
      ensures i <= MAX_BYTES ==>
        ListSize(i) && nodes[ListIndex(i)] != [] && ListIndex(size) <= ListIndex(i) < LISTS == |nodes|
      ensures i <= MAX_BYTES <==> Spare(nodes, size)
      ensures |nodes| == LISTS && ListIndex(size) < LISTS
      ensures FirstFrom(nodes, ListIndex(size)) == if i <= MAX_BYTES then ListIndex(i) else LISTS
    {
      hide Owns;
      hide ListsOk;
      hide FirstFrom;
      ValidInv();
      InvParts();
      SpareFirst(nodes, size);
      i := size;
      while i <= MAX_BYTES
        invariant size <= i <= 136 && i % 8 == 0
        invariant forall k | ListIndex(size) <= k < ListIndex(i) :: nodes[k] == []
      {
        HeadNull(owner, Range(startFree, endFree), cut, mem, freeList[..], nodes, blocks, ListIndex(i));
        if freeList[ListIndex(i)] != 0 {
          FirstFromIs(nodes, ListIndex(size), ListIndex(i));
          return;
        }
        i := i + ALIGN;
      }
      FirstFromIs(nodes, ListIndex(size), LISTS);
    }

    // `_S_chunk_alloc`. Up to `nobjs_` blocks of `size` bytes, as one piece of memory at `p`. The
    // answers of malloc and of malloc_alloc::allocate are `m1` and `m2`; it fails only when both are
    // null and neither the window nor a list has `size` bytes.
    method ChunkAlloc(size: nat, nobjs_: nat, m1: nat, m2: nat) returns (ok: bool, p: nat, nobjs: nat)
      requires Valid() && ListSize(size) && 1 <= nobjs_ && |nodes| == LISTS && nodes[ListIndex(size)] == []
      requires Answer(owner, m1, ToGet(size, nobjs_, heapSize)) && Answer(owner, m2, ToGet(size, nobjs_, heapSize))
      modifies this, freeList
      ensures Inv() && InUse(blocks) == old(InUse(blocks)) && Kept(InUse(blocks), old(mem), mem)
      ensures |nodes| == LISTS && nodes[ListIndex(size)] == []
      ensures ok ==> 1 <= nobjs == Count(nobjs_, size, endFree - p) <= nobjs_ && p > 0
      ensures ok ==> cut == Range(p, p + Times(size, nobjs)) && startFree == p + Times(size, nobjs)
      ensures ok ==> Source(old(nodes), old(startFree), old(endFree), size, ToGet(size, nobjs_, old(heapSize)), m1, m2,
        p, endFree)
      ensures nodes == Restocked(old(nodes), old(startFree), old(endFree), size, m1)
      ensures !ok ==> startFree == endFree == 0
      ensures !ok ==> Valid()
      ensures ok <==> size <= old(endFree - startFree) || m1 != 0 || Spare(old(nodes), size) || m2 != 0
      ensures heapSize == old(heapSize) +
        if size <= old(endFree - startFree) || (m1 == 0 && Spare(old(nodes), size))
            || !ok then 0 else ToGet(size, nobjs_, old(heapSize))
      decreases if size <= endFree - startFree then 0 else 1
    {
      hide *;
      ListSizeIs(size);
      KeptSame(InUse(blocks), mem);
      Multiple(size, nobjs_);
      var totalBytes, bytesLeft := Times(size, nobjs_), endFree - startFree;
      TimesIs(size, nobjs_);
      CountIs(nobjs_, size, bytesLeft);
      SourceIs(nodes, startFree, endFree, size, ToGet(size, nobjs_, heapSize), m1, m2);
      if bytesLeft >= totalBytes {
        nobjs := nobjs_;
        p := Carve(totalBytes);
        ok := true;
      } else if bytesLeft >= size {
        Quotient(size, nobjs_, bytesLeft);
        nobjs := bytesLeft / size;
        totalBytes := Times(size, nobjs);
        TimesIs(size, nobjs);
        p := Carve(totalBytes);
        ok := true;
      } else {
        p, nobjs := 0, 0;
        ok := Reload(size, nobjs_, m1, m2);
        ValidInv();
        if ok {
          ghost var between := mem;
          AnswerNull(owner, ToGet(size, nobjs_, heapSize));
          SourceIs(nodes, startFree, endFree, size, ToGet(size, nobjs_, heapSize), 0, 0);
          ok, p, nobjs := ChunkAlloc(size, nobjs_, 0, 0);
          KeptTwice(InUse(blocks), old(mem), between, mem);
        }
      }
    }

    // What is left of the window, if anything, goes to the list that it fits.
    method Settle(size: nat)
      requires Valid() && ListSize(size) && |nodes| == LISTS && nodes[ListIndex(size)] == []
      requires endFree - startFree < size
      modifies freeList, this`mem, this`blocks, this`nodes, this`owner, this`startFree, this`cut
      ensures Valid() && startFree == endFree && owner.Keys == old(owner).Keys
      ensures InUse(blocks) == old(InUse(blocks)) && Kept(InUse(blocks), old(mem), mem)
      ensures |nodes| == LISTS && nodes == Stocked(old(nodes), old(startFree), endFree)
      ensures Spare(nodes, size) <==> Spare(old(nodes), size)
      ensures ListIndex(size) < LISTS && forall k | ListIndex(size) <= k < LISTS :: nodes[k] == old(nodes)[k]
      ensures FirstFrom(nodes, ListIndex(size)) == FirstFrom(old(nodes), ListIndex(size))
    {
      hide *;
      ValidInv();
      InvParts();
      ListSizeIs(size);
      KeptSame(InUse(blocks), mem);
      WindowAligned(owner, blocks, Range(startFree, endFree), cut);
      StockedRest(nodes, startFree, endFree, size);
      StockedIs(nodes, startFree, endFree);
      if endFree > startFree {
        ListSizeIs(endFree - startFree);
        Leftover(size);
      }
    }

    // The window is too small for a block: what is left of it goes to a list, and malloc or a block
    // of a longer size fills it again.
    method Reload(size: nat, nobjs: nat, m1: nat, m2: nat) returns (ok: bool)
      requires Valid() && ListSize(size) && 1 <= nobjs && |nodes| == LISTS && nodes[ListIndex(size)] == []
      requires endFree - startFree < size
      requires Answer(owner, m1, ToGet(size, nobjs, heapSize)) && Answer(owner, m2, ToGet(size, nobjs, heapSize))
      modifies this, freeList
      ensures Valid() && InUse(blocks) == old(InUse(blocks)) && Kept(InUse(blocks), old(mem), mem)
      ensures |nodes| == LISTS && nodes[ListIndex(size)] == []
      ensures ok ==> size <= endFree - startFree
      ensures ok ==> Source(old(nodes), old(startFree), old(endFree), size, ToGet(size, nobjs, old(heapSize)), m1, m2,
        startFree, endFree)
      ensures nodes == Restocked(old(nodes), old(startFree), old(endFree), size, m1)
      ensures !ok ==> startFree == endFree == 0
      ensures ok <==> m1 != 0 || Spare(old(nodes), size) || m2 != 0
      ensures heapSize == old(heapSize) + if !ok
        || (m1 == 0 && Spare(old(nodes), size)) then 0 else ToGet(size, nobjs, old(heapSize))
    {
      hide *;
      ListSizeIs(size);
      ToGetSize(size, nobjs, heapSize);
      var bytesToGet := ToGet(size, nobjs, heapSize);
      SourceIs(nodes, startFree, endFree, size, bytesToGet, m1, m2);
      SpareFirst(nodes, size);
      Settle(size);
      if m1 != 0 {
        AnswerKeeps(old(owner), owner, m1, bytesToGet);
        Obtain(m1, bytesToGet);
        return true;
      }
      var i := Search(size);
      if i <= MAX_BYTES {
        Recover(ListIndex(i));
        return true;
      }
      Exhausted();
      if m2 == 0 {
        return false;
      }
      AnswerKeeps(old(owner), owner, m2, bytesToGet);
      Obtain(m2, bytesToGet);
      return true;
    }

    // Inv while list `k` is open: its last link is `end`, where the next block will be.
    ghost predicate Open(k: nat, end: nat)
      reads this, freeList
    {
      && freeList.Length == LISTS
      && Owns(owner, blocks, Range(startFree, endFree), cut)
      && ListsOkTo(mem, freeList[..], nodes, blocks, k, end)
      && heapSize == |owner| && heapSize % 8 == 0
    }

    // *my_free_list = p, overwriting the head of an empty list.
    method OpenList(k: nat, p: nat)
      requires Inv() && k < LISTS == |nodes| && nodes[k] == []
      modifies freeList
      ensures Open(k, p)
    {
      InvParts();
      hide Owns;
      ghost var heads := freeList[..];
      ListsOpen(mem, heads, nodes, blocks, k, p);
      hide ListsOk;
      freeList[k] := p;
      assert freeList[..] == heads[k := p];
    }

    // The next cut block joins the open list and is linked to `v`.
    method Append(k: nat, p: nat, v: nat)
      requires Open(k, p) && p == cut.lo && 8 * (k + 1) <= cut.hi - cut.lo
      modifies this`mem, this`owner, this`blocks, this`nodes, this`cut
      ensures Open(k, v) && cut == Range(p + 8 * (k + 1), old(cut).hi)
      ensures InUse(blocks) == old(InUse(blocks)) && Kept(InUse(blocks), old(mem), mem)
      ensures k < |old(nodes)| && nodes == old(nodes)[k := old(nodes)[k] + [p]]
    {
      hide *;
      OpenParts(k, p);
      Limits();
      KeptCut(owner, blocks, Range(startFree, endFree), cut, mem, v);
      ghost var size := 8 * (k + 1);
      OwnsBlock(owner, blocks, Range(startFree, endFree), cut, Block(size, false));
      ListsGrow(mem, freeList[..], nodes, blocks, k, p, v);
      InUseOther(blocks, p, size);
      mem := mem[p := v];
      owner, blocks := Give(owner, Range(p, p + size), In(p)), blocks[p := Block(size, false)];
      nodes, cut := nodes[k := nodes[k] + [p]], Range(p + size, cut.hi);
      SameKeys(owner, old(owner));
      OpenIntro(k, v);
    }

    lemma {:induction false} OpenParts(k: nat, end: nat)
      requires Open(k, end)
      ensures k < |nodes| == LISTS && freeList.Length == LISTS
      ensures Owns(owner, blocks, Range(startFree, endFree), cut)
      ensures ListsOkTo(mem, freeList[..], nodes, blocks, k, end)
      ensures heapSize == |owner| && heapSize % 8 == 0
    {
    }

    lemma {:induction false} OpenIntro(k: nat, end: nat)
      requires freeList.Length == LISTS
      requires Owns(owner, blocks, Range(startFree, endFree), cut)
      requires ListsOkTo(mem, freeList[..], nodes, blocks, k, end)
      requires heapSize == |owner| && heapSize % 8 == 0
      ensures Open(k, end)
    {
    }

    lemma {:induction false} CloseList(k: nat)
      requires Open(k, 0) && cut.lo == cut.hi
      ensures Valid()
    {
      hide Owns;
      ListsClose(mem, freeList[..], nodes, blocks, k);
    }

    // Blocks 1..nobjs of the piece at `chunk` become list `k`, which is empty.
    method Chain(k: nat, chunk: nat, nobjs: nat)
      requires Inv() && k < LISTS == |nodes| && nodes[k] == [] && nobjs > 1
      requires cut == Range(chunk + 8 * (k + 1), chunk + Times(8 * (k + 1), nobjs))
      modifies this`mem, this`owner, this`blocks, this`nodes, this`cut, freeList
      ensures Valid() && InUse(blocks) == old(InUse(blocks)) && Kept(InUse(blocks), old(mem), mem)
      ensures nodes == old(nodes)[k := Cells(chunk + 8 * (k + 1), 8 * (k + 1), nobjs - 1)]
    {
      hide *;
      var n: nat := 8 * (k + 1);
      var next: nat := chunk + n;
      ghost var limit := chunk + Times(n, nobjs);
      OpenList(k, next);
      BatchLeft(n, nobjs);
      KeptSame(InUse(blocks), mem);
      CellsNext(nodes[k], next, n, nobjs - 1);
      var i := 1;
      while i < nobjs
        invariant 1 <= i <= nobjs
        invariant Open(k, if i == nobjs then 0 else next)
        invariant cut == Range(next, limit) && limit == next + Times(n, nobjs - i)
        invariant InUse(blocks) == old(InUse(blocks)) && Kept(InUse(blocks), old(mem), mem)
        invariant k < |nodes| && nodes == old(nodes)[k := nodes[k]]
        invariant nodes[k] + Cells(next, n, nobjs - i) == Cells(chunk + n, n, nobjs - 1)
      {
        var current := next;
        next := next + n;
        TimesStep(n, nobjs - i);
        CellsNext(nodes[k], current, n, nobjs - i);
        ghost var between := mem;
        Append(k, current, if nobjs - 1 == i then 0 else next);
        KeptTwice(InUse(blocks), old(mem), between, mem);
        i := i + 1;
      }
      TimesZero(n);
      CellsNext(nodes[k], next, n, 0);
      CloseList(k);
    }

    // `_S_refill`: one block for the caller, the others of the batch for the list, which is empty.
    method Refill(n: nat, m1: nat, m2: nat) returns (ok: bool, p: nat)
      requires Valid() && ListSize(n) && |nodes| == LISTS && nodes[ListIndex(n)] == []
      requires Answer(owner, m1, ToGet(n, BATCH, heapSize)) && Answer(owner, m2, ToGet(n, BATCH, heapSize))
      modifies this, freeList
      ensures Valid() && Kept(old(InUse(blocks)), old(mem), mem)
      ensures ok <==> n <= old(endFree - startFree) || m1 != 0 || Spare(old(nodes), n) || m2 != 0
      ensures !ok ==> InUse(blocks) == old(InUse(blocks))
      ensures ok ==> p > 0 && p !in old(InUse(blocks)) && InUse(blocks) == old(InUse(blocks))[p := n]
      ensures Refilled(n, old(nodes), old(startFree), old(endFree), old(heapSize), m1, m2, ok, p, nodes, startFree,
        endFree, heapSize)
    {
      hide *;
      ListSizeIs(n);
      Limits();
      var nobjs;
      ok, p, nobjs := ChunkAlloc(n, BATCH, m1, m2);
      RefilledIs(n, old(nodes), old(startFree), old(endFree), old(heapSize), m1, m2, ok, p, nodes, startFree, endFree,
          heapSize);
      if !ok {
        return;
      }
      Multiple(n, nobjs);
      TimesIs(n, nobjs);
      ghost var before := blocks;
      Make(n);
      InUseOther(before, p, n);
      InUseOf(before, p);
      KeptLess(InUse(before), p, n, mem, mem);
      if nobjs == 1 {
        ValidIntro();
        return;
      }
      ghost var between := mem;
      Chain(ListIndex(n), p, nobjs);
      KeptLess(InUse(before), p, n, between, mem);
      KeptTwice(InUse(before), old(mem), between, mem);
    }

    // `allocate`. Requests above MAX_BYTES go to malloc, whose answer is `big`.
    method Allocate(n: nat, m1: nat, m2: nat, big: nat) returns (ok: bool, p: nat)
      requires Valid() && n > 0
      requires Answer(owner, m1, ToGet(RoundUp(n), BATCH, heapSize))
        && Answer(owner, m2, ToGet(RoundUp(n), BATCH, heapSize))
      modifies this, freeList
      ensures Valid() && Kept(old(InUse(blocks)), old(mem), mem)
      ensures n > MAX_BYTES ==>
        ok && p == big && blocks == old(blocks) && nodes == old(nodes) && owner == old(owner) && mem == old(mem)
      ensures n <= MAX_BYTES && !ok ==>
        InUse(blocks) == old(InUse(blocks)) && m1 == m2 == 0 && RoundUp(n) > old(endFree - startFree)
            && !Spare(old(nodes), RoundUp(n))
      ensures n <= MAX_BYTES && ok ==>
        p > 0 && p !in old(InUse(blocks)) && InUse(blocks) == old(InUse(blocks))[p := RoundUp(n)]
      ensures |old(nodes)| == LISTS && (n <= MAX_BYTES ==> ListSize(RoundUp(n)) && ListIndex(n) < LISTS)
      ensures n <= MAX_BYTES && old(nodes)[ListIndex(n)] != [] ==>
        && ok && p == old(nodes)[ListIndex(n)][0] && nodes == old(nodes)[ListIndex(n) := old(nodes)[ListIndex(n)][1..]]
        && startFree == old(startFree) && endFree == old(endFree) && heapSize == old(heapSize)
      ensures n <= MAX_BYTES && old(nodes)[ListIndex(n)] == [] ==>
        Refilled(RoundUp(n), old(nodes), old(startFree), old(endFree), old(heapSize), m1, m2, ok, p, nodes, startFree,
          endFree, heapSize)
    {
      hide *;
      Limits();
      KeptSame(InUse(blocks), mem);
      ValidInv();
      InvParts();
      ok, p := true, big;
      if n <= MAX_BYTES {
        RoundUpSize(n);
        ListSizeIs(RoundUp(n));
        var k := ListIndex(n);
        HeadNull(owner, Range(startFree, endFree), cut, mem, freeList[..], nodes, blocks, k);
        var result := freeList[k];
        if result == 0 {
          ok, p := Refill(RoundUp(n), m1, m2);
        } else {
          ghost var before := blocks;
          p := Take(k);
          InUseOther(before, p, RoundUp(n));
          InUseOf(before, p);
          ValidIntro();
        }
      }
    }

    // `deallocate` of a block that `allocate` handed out for a request of `n` bytes.
    method Deallocate(p: nat, n: nat)
      requires Valid() && n > 0
      requires n <= MAX_BYTES ==> p in InUse(blocks) && InUse(blocks)[p] == RoundUp(n)
      modifies this, freeList
      ensures Valid() && owner == old(owner) && heapSize == old(heapSize) && Kept(InUse(blocks), old(mem), mem)
      ensures InUse(blocks) == if n > MAX_BYTES then old(InUse(blocks)) else old(InUse(blocks)) - {p}
      ensures startFree == old(startFree) && endFree == old(endFree)
      ensures n > MAX_BYTES ==> nodes == old(nodes)
      ensures n <= MAX_BYTES ==>
        ListIndex(n) < |old(nodes)| && nodes == old(nodes)[ListIndex(n) := [p] + old(nodes)[ListIndex(n)]]
    {
      hide *;
      Limits();
      KeptSame(InUse(blocks), mem);
      ValidInv();
      InvParts();
      if n <= MAX_BYTES {
        RoundUpSize(n);
        ListSizeIs(RoundUp(n));
        InUseFree(blocks, p);
        Push(ListIndex(n), p);
        ValidIntro();
      }
    }

    // A client writes a word of its block.
    method Write(p: nat, a: nat, v: nat)
      requires Valid() && p in blocks && blocks[p].live && Within(Extent(p, blocks[p]), a)
      modifies this`mem
      ensures Valid() && mem == old(mem)[a := v]
    {
      hide *;
      ValidInv();
      InvParts();
      ListsWrite(owner, Range(startFree, endFree), cut, mem, freeList[..], nodes, blocks, p, a, v);
      mem := mem[a := v];
      InvIntro();
    }

    // At every state: blocks are aligned, do not overlap one another or the window, and together
    // with the window cover exactly the bytes obtained from malloc, `heapSize` of them.
    lemma {:induction false} Accounted()
      requires Valid()
      ensures |owner| == heapSize
      ensures startFree % 8 == 0 && endFree % 8 == 0
      ensures forall p | p in blocks :: BlockOk(p, blocks[p])
      ensures forall p, q | p in blocks && q in blocks && p < q :: p + blocks[p].size <= q
      ensures forall p | p in blocks && startFree < endFree :: p + blocks[p].size <= startFree || endFree <= p
      ensures forall a: nat ::
        a in owner <==> startFree <= a < endFree || exists p :: p in blocks && Within(Extent(p, blocks[p]), a)
    {
      hide ListsOk;
      hide Owns;
      Partition(owner, blocks, Range(startFree, endFree), cut);
      OwnsParts(owner, blocks, Range(startFree, endFree), cut);
      assert forall a: nat :: Within(Range(startFree, endFree), a) <==> startFree <= a < endFree;
    }

    // At every state: following the links from head `k` visits exactly the free blocks of its size,
    // each once.
    lemma {:induction false} ListsExact(k: nat)
      requires Valid() && k < LISTS
      ensures |nodes| == LISTS && freeList.Length == LISTS
      ensures Linked(mem, freeList[k], nodes[k], 0) && Distinct(nodes[k])
      ensures forall p :: p in nodes[k] <==> p in blocks && blocks[p] == Block(8 * (k + 1), false)
    {
      hide Owns;
      hide Linked;
      hide Distinct;
      assert ListOk(mem, freeList[..][k], nodes[k], 0, blocks, 8 * (k + 1));
    }
  }

  lemma Limits()
    ensures MAX_BYTES == 128 && LISTS == 16 && BATCH == 20
  {
  }

  lemma {:induction false} RoundUpSize(n: nat)
    requires 0 < n <= 128
    ensures ListSize(RoundUp(n)) && ListIndex(RoundUp(n)) == ListIndex(n) && RoundUp(n) == 8 * (ListIndex(n) + 1)
  {
  }

  lemma {:induction false} InUseOf(blocks: map<nat, Block>, p: nat)
    requires p in blocks ==> !blocks[p].live
    ensures p !in InUse(blocks)
  {
  }

  function Times(n: nat, k: nat): nat { n * k }

  lemma TimesIs(n: nat, k: nat)
    ensures Times(n, k) == n * k
  {
  }

  lemma {:induction false} TimesStep(n: nat, k: nat)
    requires k > 0
    ensures Times(n, k) == n + Times(n, k - 1)
  {
  }

  lemma {:induction false} TimesZero(n: nat)
    ensures Times(n, 0) == 0
  {
  }

  lemma {:induction false} BatchLeft(n: nat, k: nat)
    requires k > 0
    ensures Times(n, k) == n + Times(n, k - 1)
  {
  }

  lemma {:induction false} Multiple(size: nat, n: nat)
    requires size % 8 == 0 && n >= 1
    ensures size * n >= size && (size * n) % 8 == 0
    ensures Times(size, n) == size * n && (n == 1 ==> Times(size, n) == size)
  {
    var q := size / 8;
    assert size * n == 8 * (q * n);
    assert size * n == size + size * (n - 1);
  }

  lemma {:induction false} Quotient(size: nat, n: nat, bytes: nat)
    requires size % 8 == 0 && 0 < size <= bytes < size * n
    ensures 1 <= bytes / size < n && size <= size * (bytes / size) <= bytes && (size * (bytes / size)) % 8 == 0
  {
    var q := bytes / size;
    assert bytes == size * q + bytes % size;
    if q >= n {
      Monotone(size, n, q);
    }
    Multiple(size, q);
  }

  lemma {:induction false} Monotone(size: nat, m: nat, n: nat)
    requires m <= n
    ensures size * m <= size * n
  {
    assert size * n == size * m + size * (n - m);
  }

  lemma {:induction false} ToGetSize(size: nat, n: nat, heapSize: nat)
    requires size % 8 == 0 && n >= 1
    ensures ToGet(size, n, heapSize) % 8 == 0 && ToGet(size, n, heapSize) >= size
  {
    hide RoundUp;
    Multiple(size, n);
    Eights(size * n, RoundUp(heapSize / 16));
  }

  lemma {:induction false} Eights(x: nat, y: nat)
    requires x % 8 == 0 && y % 8 == 0
    ensures (2 * x + y) % 8 == 0
  {
    assert 2 * x + y == 8 * (2 * (x / 8) + y / 8);
  }

  lemma {:induction false} ExtentIs(p: nat, b: Block)
    ensures Extent(p, b) == Range(p, p + b.size)
  {
  }

  lemma {:induction false} ListSizeIs(n: nat)
    ensures ListSize(n) <==> 8 <= n <= 128 && n % 8 == 0
    ensures ListSize(n) ==> ListIndex(n) < LISTS == 16 && n == 8 * (ListIndex(n) + 1)
  {
  }

  lemma {:induction false} SameKeys(o: map<nat, Owner>, o': map<nat, Owner>)
    requires o.Keys == o'.Keys
    ensures |o| == |o'|
  {
    assert |o| == |o.Keys| && |o'| == |o'.Keys|;
  }

  lemma {:induction false} WindowAligned(owner: map<nat, Owner>, blocks: map<nat, Block>, w: Range, c: Range)
    requires Owns(owner, blocks, w, c)
    ensures Aligned(w) && w.lo <= w.hi && (w.hi - w.lo) % 8 == 0
  {
    hide BlockOk;
    hide OwnedRight;
    AlignedLength(w);
  }

  lemma AlignedLength(r: Range)
    ensures Aligned(r) ==> (r.hi - r.lo) % 8 == 0
  {
  }

  lemma {:induction false} CarveNotNull(owner: map<nat, Owner>, blocks: map<nat, Block>, w: Range, c: Range)
    requires Owns(owner, blocks, w, c) && w.lo < w.hi
    ensures w.lo > 0
  {
    assert Within(w, w.lo);
  }

  lemma {:induction false} OwnsEmpty(owner: map<nat, Owner>, blocks: map<nat, Block>, w: Range, w': Range, c: Range)
    requires Owns(owner, blocks, w, c) && w.lo == w.hi && w'.lo == w'.hi && w'.lo % 8 == 0
    ensures Owns(owner, blocks, w', c)
  {
    hide *;
    OwnsParts(owner, blocks, w, c);
    EmptyRange(w);
    EmptyRange(w');
    EmptyAligned(w');
    forall a | a in owner
      ensures OwnedRight(owner[a], blocks, w', c, a)
    {
      OwnedElsewhere(owner[a], blocks, w, w', c, a);
    }
    OwnsIntro(owner, blocks, w', c);
  }

  lemma {:induction false} EmptyAligned(w: Range)
    requires w.lo == w.hi && w.lo % 8 == 0
    ensures Aligned(w)
  {
  }

  // ----- One session, in numbers -----

  // A fresh allocator asks malloc for 2 * 20 * 8 bytes and cuts 20 blocks of the half of them.
  lemma FirstRefill(nodes: seq<seq<nat>>, p: nat, nodes': seq<seq<nat>>, lo: nat, hi: nat, heap: nat)
    requires |nodes| == LISTS && (forall k | 0 <= k < LISTS :: nodes[k] == []) && ListSize(8)
    requires Refilled(8, nodes, 0, 0, 0, 4096, 0, true, p, nodes', lo, hi, heap)
    ensures p == 4096 && lo == 4256 && hi == 4416 && heap == 320
    ensures |nodes'| == LISTS && |nodes'[0]| == 19 && nodes'[0][..2] == [4104, 4112]
    ensures forall k | 1 <= k < LISTS :: nodes'[k] == []
  {
    assert RoundUp(0) == 0;
    CellsFirst(4104, 8, 19);
  }

  lemma {:induction false} CellsFirst(p: nat, n: nat, count: nat)
    ensures |Cells(p, n, count)| == count
    ensures count >= 2 ==> Cells(p, n, count)[..2] == [p, p + n]
    decreases count
  {
    if count > 0 {
      CellsFirst(p + n, n, count - 1);
      if count >= 2 {
        assert Cells(p, n, count) == [p] + ([p + n] + Cells(p + n + n, n, count - 2));
      }
    }
  }

  // Once 320 bytes were obtained, 24 more are asked for than twice the batch: the sixteenth part, rounded up.
  lemma LaterRefill(nodes: seq<seq<nat>>, p: nat, nodes': seq<seq<nat>>, lo: nat, hi: nat, heap: nat)
    requires |nodes| == LISTS && nodes[1] == [] && ListSize(16)
    requires Refilled(16, nodes, 0, 0, 320, 8192, 0, true, p, nodes', lo, hi, heap)
    ensures p == 8192 && lo == 8512 && hi == 8856 && heap == 984 && |nodes'| == LISTS && |nodes'[1]| == 19
  {
    assert RoundUp(20) == 24;
    CellsFirst(8208, 16, 19);
  }

  // Of a window of 160 bytes one block of 96 is cut.
  lemma OneBlock(nodes: seq<seq<nat>>, p: nat, nodes': seq<seq<nat>>, lo: nat, hi: nat, heap: nat)
    requires |nodes| == LISTS && nodes[11] == [] && ListSize(96)
    requires Refilled(96, nodes, 4256, 4416, 320, 0, 0, true, p, nodes', lo, hi, heap)
    ensures p == 4256 && lo == 4352 && hi == 4416 && heap == 320 && nodes' == nodes
  {
  }

  // A window of 64 bytes is no use for a block of 128: it goes to list 7, and nothing else can serve.
  lemma NoBlock(nodes: seq<seq<nat>>, ok: bool, p: nat, nodes': seq<seq<nat>>, lo: nat, hi: nat, heap: nat)
    requires |nodes| == LISTS && ListSize(128) && nodes[15] == [] && (ok ==> p > 0)
    requires Refilled(128, nodes, 4352, 4416, 320, 0, 0, ok, p, nodes', lo, hi, heap)
    ensures !ok && nodes' == nodes[7 := [4352] + nodes[7]] && lo == hi == 0 && heap == 320
  {
    FirstFromIs(nodes, 15, 16);
  }

  lemma SpareFor(nodes: seq<seq<nat>>)
    requires |nodes| == LISTS && nodes[11] != []
    ensures Spare(nodes, 80)
  {
    assert ListIndex(80) <= 11 < |nodes| && nodes[11] != [];
  }

  // A block of 96 becomes the window for one of 80.
  lemma LongerBlock(nodes: seq<seq<nat>>, p: nat, nodes': seq<seq<nat>>, lo: nat, hi: nat, heap: nat)
    requires |nodes| == LISTS && ListSize(80) && nodes[9] == nodes[10] == [] && nodes[11] == [4256]
    requires Refilled(80, nodes, 0, 0, 320, 0, 0, true, p, nodes', lo, hi, heap)
    ensures p == 4256 && lo == 4336 && hi == 4352 && heap == 320 && nodes' == nodes[11 := []]
  {
    FirstFromIs(nodes, 9, 11);
  }

  lemma Sizes()
    ensures RoundUp(8) == RoundUp(5) == 8 && RoundUp(96) == RoundUp(90) == 96 && RoundUp(128) == 128
    ensures RoundUp(60) == 64 && RoundUp(80) == 80
    ensures ListIndex(8) == ListIndex(5) == 0 && ListIndex(60) == 7 && ListIndex(80) == 9 && ListIndex(90) == 11
    ensures ListIndex(96) == 11 && ListIndex(128) == 15
    ensures MAX_BYTES == 128 && LISTS == 16 && BATCH == 20
  {
  }

  lemma Nulls()
    ensures forall owner, size {:trigger Answer(owner, 0, size)} :: Answer(owner, 0, size)
  {
  }

  lemma FirstAnswer()
    ensures Answer(map[], 4096, ToGet(8, BATCH, 0))
  {
    hide RoundUp;
    RoundUpNone();
  }

  lemma RoundUpNone()
    ensures RoundUp(0) == 0
  {
  }

  method FirstTwo(a: Allocator) returns (ps: seq<nat>)
    requires a.Valid() && a.owner == map[] && a.heapSize == a.startFree == a.endFree == 0
    requires |a.nodes| == LISTS && forall k | 0 <= k < LISTS :: a.nodes[k] == []
    modifies a, a.freeList
    ensures a.Valid() && ps == [4096, 4104]
    ensures a.startFree == 4256 && a.endFree == 4416 && a.heapSize == 320
    ensures |a.nodes| == LISTS && forall k | 1 <= k < LISTS :: a.nodes[k] == []
  {
    hide *;
    Sizes();
    Nulls();
    FirstAnswer();
    var ok, p;
    ghost var nodes := a.nodes;
    ok, p := a.Allocate(8, 4096, 0, 0);
    FirstRefill(nodes, p, a.nodes, a.startFree, a.endFree, a.heapSize);
    ps := [p];
    ok, p := a.Allocate(5, 0, 0, 0);
    ps := ps + [p];
  }

  // Some requests and returns, one after the other, and what they give.
  method Session() returns (ps: seq<nat>, fails: bool)
    ensures ps == [4096, 4104, 4256, 4352, 4256] && fails
  {
    hide *;
    Sizes();
    Nulls();
    var a := new Allocator();
    ps := FirstTwo(a);
    var ok, p;
    ghost var nodes := a.nodes;
    ok, p := a.Allocate(96, 0, 0, 0);
    OneBlock(nodes, p, a.nodes, a.startFree, a.endFree, a.heapSize);
    ps, nodes := ps + [p], a.nodes;
    ok, p := a.Allocate(128, 0, 0, 0);
    fails := !ok;
    NoBlock(nodes, ok, p, a.nodes, a.startFree, a.endFree, a.heapSize);
    ok, p := a.Allocate(60, 0, 0, 0);
    ps := ps + [p];
    a.Deallocate(4256, 90);
    nodes := a.nodes;
    SpareFor(nodes);
    ok, p := a.Allocate(80, 0, 0, 0);
    LongerBlock(nodes, p, a.nodes, a.startFree, a.endFree, a.heapSize);
    ps := ps + [p];
  }
}
