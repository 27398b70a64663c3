/** The pool allocator: address-ordered first fit over a coalesced free list. */
module PoolAllocator {
  import opened Common
  import opened Sorting

  datatype Block = Block(offset: Bytes, bytes: Bytes) {
    function End(): int { offset + bytes }

    predicate Holds(a: int) { offset <= a < End() }
  }

  datatype Allocation = Allocation(id: string, block: Block)

  datatype AllocatorError =
    NoError | InvalidId | InvalidSize | DuplicateAllocation | UnknownAllocation | OutOfMemory

  datatype AllocationResult = AllocationResult(error: AllocatorError, offset: Bytes, bytes: Bytes)

  /** The allocator's whole state. */
  datatype Pool = Pool(capacity: Bytes, used: int, free: seq<Block>, live: seq<Allocation>)

  // ---------------------------------------------------------------- coverage

  ghost predicate Covers(blocks: seq<Block>, a: int) {
    exists i :: 0 <= i < |blocks| && blocks[i].Holds(a)
  }

  lemma CoversAppend(blocks: seq<Block>, b: Block, a: int)
    ensures Covers(blocks + [b], a) <==> Covers(blocks, a) || b.Holds(a)
  {
    var all := blocks + [b];
    if Covers(blocks, a) {
      var i :| 0 <= i < |blocks| && blocks[i].Holds(a);
      assert all[i].Holds(a);
    }
    if b.Holds(a) {
      assert all[|blocks|].Holds(a);
    }
  }

  function SumOf(blocks: seq<Block>): nat {
    if blocks == [] then 0 else SumOf(blocks[..|blocks| - 1]) + blocks[|blocks| - 1].bytes
  }

  lemma SumAppend(blocks: seq<Block>, b: Block)
    ensures SumOf(blocks + [b]) == SumOf(blocks) + b.bytes
  {
    assert (blocks + [b])[..|blocks|] == blocks;
  }

  lemma {:induction false} SumRemove(blocks: seq<Block>, i: nat)
    requires i < |blocks|
    ensures SumOf(blocks) == SumOf(blocks[..i] + blocks[i + 1..]) + blocks[i].bytes
    decreases |blocks|
  {
    var n := |blocks| - 1;
    if i == n {
      assert blocks[..i] + blocks[i + 1..] == blocks[..n];
    } else {
      SumRemove(blocks[..n], i);
      assert blocks[..i] + blocks[i + 1..] == blocks[..n][..i] + blocks[..n][i + 1..] + [blocks[n]];
      SumAppend(blocks[..n][..i] + blocks[..n][i + 1..], blocks[n]);
    }
  }

  lemma {:induction false} SumUpdate(blocks: seq<Block>, i: nat, b: Block)
    requires i < |blocks|
    ensures SumOf(blocks[i := b]) == SumOf(blocks) - blocks[i].bytes + b.bytes
  {
    SumRemove(blocks, i);
    SumRemove(blocks[i := b], i);
    assert blocks[i := b][..i] + blocks[i := b][i + 1..] == blocks[..i] + blocks[i + 1..];
  }

  lemma MultisetRemove(ys: seq<Block>, i: nat)
    requires i < |ys|
    ensures multiset(ys[..i] + ys[i + 1..]) == multiset(ys) - multiset{ys[i]}
  {
    assert ys == ys[..i] + [ys[i]] + ys[i + 1..];
  }

  /** The library sort only permutes, so it keeps the sum. */
  lemma {:induction false} SumPermutes(xs: seq<Block>, ys: seq<Block>)
    requires multiset(xs) == multiset(ys)
    ensures SumOf(xs) == SumOf(ys)
    decreases |xs|
  {
    if xs == [] {
      assert |ys| == |multiset(ys)|;
    } else {
      var n := |xs| - 1;
      assert xs[n] in multiset(ys);
      var i :| 0 <= i < |ys| && ys[i] == xs[n];
      MultisetRemove(xs, n);
      MultisetRemove(ys, i);
      assert xs[..n] + xs[n + 1..] == xs[..n];
      SumPermutes(xs[..n], ys[..i] + ys[i + 1..]);
      SumRemove(ys, i);
    }
  }

  // ---------------------------------------------------------- canonical form

  /** Address order, no empty block, and a gap between any two blocks. */
  ghost predicate Canonical(blocks: seq<Block>) {
    && (forall i :: 0 <= i < |blocks| ==> blocks[i].bytes > 0)
    && (forall i, j :: 0 <= i < j < |blocks| ==> blocks[i].End() < blocks[j].offset)
  }

  ghost predicate SameCover(x: seq<Block>, y: seq<Block>) {
    forall a :: Covers(x, a) <==> Covers(y, a)
  }

  lemma FirstBlockReach(x: seq<Block>, y: seq<Block>)
    requires Canonical(x) && Canonical(y) && SameCover(x, y) && x != []
    ensures y != [] && y[0].offset <= x[0].offset
    ensures y[0].offset == x[0].offset ==> y[0].End() <= x[0].End()
  {
    assert x[0].Holds(x[0].offset);
    assert Covers(y, x[0].offset);
    if y[0].offset == x[0].offset {
      assert y[0].Holds(x[0].End()) ==> Covers(x, x[0].End());
      assert !Covers(x, x[0].End());
    }
  }

  lemma CoversTail(x: seq<Block>, a: int)
    requires Canonical(x) && x != []
    ensures Covers(x[1..], a) <==> Covers(x, a) && !x[0].Holds(a)
  {
    if Covers(x[1..], a) {
      var i :| 0 <= i < |x| - 1 && x[1..][i].Holds(a);
      assert x[i + 1].Holds(a);
    }
    if Covers(x, a) && !x[0].Holds(a) {
      var i :| 0 <= i < |x| && x[i].Holds(a);
      assert x[1..][i - 1].Holds(a);
    }
  }

  /** A set of addresses has only one canonical free list. */
  lemma {:induction false} CanonicalIsUnique(x: seq<Block>, y: seq<Block>)
    requires Canonical(x) && Canonical(y) && SameCover(x, y)
    ensures x == y
    decreases |x|
  {
    if x == [] {
      if y != [] {
        FirstBlockReach(y, x);
      }
    } else {
      FirstBlockReach(x, y);
      FirstBlockReach(y, x);
      assert x[0] == y[0];
      forall a ensures Covers(x[1..], a) <==> Covers(y[1..], a) {
        CoversTail(x, a);
        CoversTail(y, a);
      }
      CanonicalIsUnique(x[1..], y[1..]);
      assert x == [x[0]] + x[1..] && y == [y[0]] + y[1..];
    }
  }

  /** A free interval never straddles two blocks of a coalesced list. */
  lemma IntervalInOneBlock(blocks: seq<Block>, a: int, n: int) returns (i: nat)
    requires Canonical(blocks) && n > 0
    requires forall x :: a <= x < a + n ==> Covers(blocks, x)
    ensures i < |blocks| && blocks[i].offset <= a && a + n <= blocks[i].End()
  {
    assert Covers(blocks, a);
    i :| 0 <= i < |blocks| && blocks[i].Holds(a);
    assert !Covers(blocks, blocks[i].End()) by {
      forall j | 0 <= j < |blocks| ensures !blocks[j].Holds(blocks[i].End()) {
        assert j < i || j == i || i < j;
      }
    }
  }

  // --------------------------------------------------------------- invariant

  function Occupants(live: seq<Allocation>): seq<Block> {
    seq(|live|, i requires 0 <= i < |live| => live[i].block)
  }

  ghost predicate Apart(x: Block, y: Block) {
    x.End() <= y.offset || y.End() <= x.offset
  }

  ghost predicate PairwiseApart(blocks: seq<Block>) {
    && (forall i :: 0 <= i < |blocks| ==> blocks[i].bytes > 0)
    && (forall i, j :: 0 <= i < j < |blocks| ==> Apart(blocks[i], blocks[j]))
  }

  predicate Names(live: seq<Allocation>, id: string) {
    exists i :: 0 <= i < |live| && live[i].id == id
  }

  ghost predicate DistinctIds(live: seq<Allocation>) {
    forall i, j :: 0 <= i < j < |live| ==> live[i].id != live[j].id
  }

  /** Free blocks and live allocations tile the address space: every address is in exactly one
      of them, the free list is in canonical form, and the byte counts add up. */
  ghost predicate Tiled(p: Pool) {
    && p.capacity > 0
    && Canonical(p.free)
    && PairwiseApart(Occupants(p.live))
    && DistinctIds(p.live)
    && (forall i :: 0 <= i < |p.live| ==> ValidName(p.live[i].id) && p.live[i].block.End() <= p.capacity)
    && (forall a :: Covers(p.free, a) <==> 0 <= a < p.capacity && !Covers(Occupants(p.live), a))
    && p.used == SumOf(Occupants(p.live))
    && p.used + SumOf(p.free) == p.capacity
  }

  function Initial(capacity: Bytes): Pool {
    Pool(capacity, 0, [Block(0, capacity)], [])
  }

  /** The free list is a function of the live allocations. */
  lemma LiveDeterminesPool(p: Pool, q: Pool)
    requires Tiled(p) && Tiled(q) && p.capacity == q.capacity && p.live == q.live
    ensures p == q
  {
    CanonicalIsUnique(p.free, q.free);
  }

  lemma InitialIsTiled(capacity: Bytes)
    requires capacity > 0
    ensures Tiled(Initial(capacity))
  {
    var p := Initial(capacity);
    assert p.free[..0] == [];
    forall a ensures Covers(p.free, a) <==> 0 <= a < capacity && !Covers(Occupants(p.live), a) {
      if 0 <= a < capacity {
        assert p.free[0].Holds(a);
      }
    }
  }

  // ----------------------------------------------------------- what is asked

  /** [a, a + n) lies in the address space and meets no live allocation. */
  ghost predicate Room(p: Pool, a: int, n: int) {
    && 0 <= a && a + n <= p.capacity
    && forall x :: a <= x < a + n ==> !Covers(Occupants(p.live), x)
  }

  function Rejected(error: AllocatorError): AllocationResult { AllocationResult(error, 0, 0) }

  /** The answer allocate must give and the pool it must leave, in terms of address space only. */
  ghost predicate Allocates(p: Pool, id: string, n: Bytes, r: AllocationResult, q: Pool) {
    if !ValidName(id) then r == Rejected(InvalidId) && q == p
    else if n == 0 then r == Rejected(InvalidSize) && q == p
    else if Names(p.live, id) then r == Rejected(DuplicateAllocation) && q == p
    else if forall a :: !Room(p, a, n) then r == Rejected(OutOfMemory) && q == p
    else
      && r.error == NoError && r.bytes == n
      && Room(p, r.offset, n) && (forall a :: Room(p, a, n) ==> r.offset <= a)
      && q.capacity == p.capacity
      && q.live == p.live + [Allocation(id, Block(r.offset, n))]
      && Tiled(q)
  }

  function Without(live: seq<Allocation>, id: string): seq<Allocation> {
    if live == [] then []
    else if live[0].id == id then live[1..]
    else [live[0]] + Without(live[1..], id)
  }

  ghost predicate Releases(p: Pool, id: string, r: AllocationResult, q: Pool) {
    if !Names(p.live, id) then r == Rejected(UnknownAllocation) && q == p
    else
      && r.error == NoError && Allocation(id, Block(r.offset, r.bytes)) in p.live
      && q.capacity == p.capacity
      && q.live == Without(p.live, id)
      && Tiled(q)
  }

  // ------------------------------------------------- the proof of allocation

  lemma OccupantsAppend(live: seq<Allocation>, x: Allocation)
    ensures Occupants(live + [x]) == Occupants(live) + [x.block]
  {
  }

  lemma UnsharedBlocksAreApart(x: Block, y: Block)
    requires x.bytes > 0 && y.bytes > 0
    requires forall a :: !(x.Holds(a) && y.Holds(a))
    ensures Apart(x, y)
  {
    var a := if x.offset < y.offset then y.offset else x.offset;
    assert !(x.Holds(a) && y.Holds(a));
  }

  /** What is left of the free list when the first n addresses of block i are handed out. */
  function Taken(free: seq<Block>, i: nat, n: Bytes): seq<Block>
    requires i < |free| && 0 < n <= free[i].bytes
  {
    if free[i].bytes == n then free[..i] + free[i + 1..]
    else free[i := Block(Wrap(free[i].offset + n), free[i].bytes - n)]
  }

  lemma TakenIsCanonical(free: seq<Block>, i: nat, n: Bytes)
    requires i < |free| && 0 < n <= free[i].bytes && free[i].End() <= MAX_BYTES && Canonical(free)
    ensures Canonical(Taken(free, i, n))
    ensures SumOf(Taken(free, i, n)) == SumOf(free) - n
  {
    hide Wrap, Canonical;
    if free[i].bytes == n {
      SumRemove(free, i);
      RemovedIsCanonical(free, i);
    } else {
      var rest := Block(free[i].offset + n, free[i].bytes - n);
      SumUpdate(free, i, rest);
      ShrunkIsCanonical(free, i, rest);
    }
  }

  lemma ShrunkIsCanonical(free: seq<Block>, i: nat, rest: Block)
    requires i < |free| && Canonical(free)
    requires rest.bytes > 0 && free[i].offset <= rest.offset && rest.End() == free[i].End()
    ensures Canonical(free[i := rest])
  {
    var t := free[i := rest];
    forall j, k | 0 <= j < k < |t| ensures t[j].End() < t[k].offset {
      assert free[j].End() < free[k].offset;
    }
  }

  lemma RemovedIsCanonical(free: seq<Block>, i: nat)
    requires i < |free| && Canonical(free)
    ensures Canonical(free[..i] + free[i + 1..])
  {
    var t := free[..i] + free[i + 1..];
    forall j, k | 0 <= j < k < |t| ensures t[j].End() < t[k].offset {
      assert t[j] == free[if j < i then j else j + 1] && t[k] == free[if k < i then k else k + 1];
    }
  }

  lemma RemovedCoversNoMore(blocks: seq<Block>, i: nat, a: int)
    requires i < |blocks| && PairwiseApart(blocks)
    requires Covers(blocks[..i] + blocks[i + 1..], a)
    ensures Covers(blocks, a) && !blocks[i].Holds(a)
  {
    var t := blocks[..i] + blocks[i + 1..];
    var j :| 0 <= j < |t| && t[j].Holds(a);
    var k := if j < i then j else j + 1;
    assert blocks[k].Holds(a);
    assert Apart(blocks[if k < i then k else i], blocks[if k < i then i else k]);
  }

  lemma RemovedCovers(blocks: seq<Block>, i: nat, a: int)
    requires i < |blocks| && PairwiseApart(blocks)
    ensures Covers(blocks[..i] + blocks[i + 1..], a) <==> Covers(blocks, a) && !blocks[i].Holds(a)
  {
    var t := blocks[..i] + blocks[i + 1..];
    if Covers(t, a) {
      RemovedCoversNoMore(blocks, i, a);
    }
    if Covers(blocks, a) && !blocks[i].Holds(a) {
      var j :| 0 <= j < |blocks| && blocks[j].Holds(a);
      assert t[if j < i then j else j - 1] == blocks[j];
    }
  }

  lemma ShrunkCovers(free: seq<Block>, i: nat, n: Bytes, a: int)
    requires i < |free| && 0 < n < free[i].bytes && free[i].End() <= MAX_BYTES && Canonical(free)
    ensures Covers(free[i := Block(free[i].offset + n, free[i].bytes - n)], a)
       <==> Covers(free, a) && !Block(free[i].offset, n).Holds(a)
  {
    var t := free[i := Block(free[i].offset + n, free[i].bytes - n)];
    if Covers(t, a) {
      var j :| 0 <= j < |t| && t[j].Holds(a);
      assert free[j].Holds(a);
      assert j < i || j == i || i < j;
    }
    if Covers(free, a) && !Block(free[i].offset, n).Holds(a) {
      var j :| 0 <= j < |free| && free[j].Holds(a);
      assert t[j].Holds(a);
    }
  }

  lemma TakenCovers(free: seq<Block>, i: nat, n: Bytes, a: int)
    requires i < |free| && 0 < n <= free[i].bytes && free[i].End() <= MAX_BYTES && Canonical(free)
    ensures Covers(Taken(free, i, n), a) <==> Covers(free, a) && !Block(free[i].offset, n).Holds(a)
  {
    if free[i].bytes == n {
      forall j, k | 0 <= j < k < |free| ensures Apart(free[j], free[k]) {
      }
      RemovedCovers(free, i, a);
      assert Block(free[i].offset, n) == free[i];
    } else {
      ShrunkCovers(free, i, n, a);
    }
  }

  lemma FreeBlockEnds(p: Pool, i: nat)
    requires Tiled(p) && i < |p.free|
    ensures p.free[i].End() <= p.capacity
  {
    assert p.free[i].Holds(p.free[i].End() - 1);
    assert Covers(p.free, p.free[i].End() - 1);
  }

  /** The start of the first block that is long enough is the lowest address with room. */
  lemma FirstFitIsLowest(p: Pool, i: nat, n: Bytes)
    requires Tiled(p) && n > 0 && i < |p.free| && n <= p.free[i].bytes
    requires forall j :: 0 <= j < i ==> p.free[j].bytes < n
    ensures Room(p, p.free[i].offset, n)
    ensures forall a :: Room(p, a, n) ==> p.free[i].offset <= a
  {
    FreeBlockEnds(p, i);
    forall x | p.free[i].offset <= x < p.free[i].offset + n ensures !Covers(Occupants(p.live), x) {
      assert p.free[i].Holds(x);
      assert Covers(p.free, x);
    }
    forall a | Room(p, a, n) ensures p.free[i].offset <= a {
      var j := IntervalInOneBlock(p.free, a, n);
      assert i <= j;
    }
  }

  /** When no block is long enough there is no room anywhere. */
  lemma NoFitMeansNoRoom(p: Pool, n: Bytes)
    requires Tiled(p) && n > 0
    requires forall j :: 0 <= j < |p.free| ==> p.free[j].bytes < n
    ensures forall a :: !Room(p, a, n)
  {
    forall a ensures !Room(p, a, n) {
      if Room(p, a, n) {
        var j := IntervalInOneBlock(p.free, a, n);
        assert false;
      }
    }
  }

  lemma TakenIsApart(p: Pool, i: nat, n: Bytes)
    requires Tiled(p) && i < |p.free| && 0 < n <= p.free[i].bytes
    ensures forall j :: 0 <= j < |p.live| ==> Apart(Occupants(p.live)[j], Block(p.free[i].offset, n))
    ensures forall a :: Block(p.free[i].offset, n).Holds(a) ==> Covers(p.free, a)
  {
    var b := Block(p.free[i].offset, n);
    forall a | b.Holds(a) ensures Covers(p.free, a) {
      assert p.free[i].Holds(a);
    }
    forall j | 0 <= j < |p.live| ensures Apart(Occupants(p.live)[j], b) {
      forall a ensures !(Occupants(p.live)[j].Holds(a) && b.Holds(a)) {
        assert Occupants(p.live)[j].Holds(a) ==> Covers(Occupants(p.live), a);
      }
      UnsharedBlocksAreApart(Occupants(p.live)[j], b);
    }
  }

  lemma TakenIsTiled(p: Pool, i: nat, id: string, n: Bytes)
    requires Tiled(p) && ValidName(id) && !Names(p.live, id)
    requires i < |p.free| && 0 < n <= p.free[i].bytes && p.free[i].End() <= p.capacity
    ensures Tiled(Pool(p.capacity, p.used + n, Taken(p.free, i, n),
                       p.live + [Allocation(id, Block(p.free[i].offset, n))]))
  {
    var b := Block(p.free[i].offset, n);
    var x := Allocation(id, b);
    OccupantsAppend(p.live, x);
    TakenIsCanonical(p.free, i, n);
    SumAppend(Occupants(p.live), b);
    TakenIsApart(p, i, n);
    forall a
      ensures Covers(Taken(p.free, i, n), a) <==> 0 <= a < p.capacity && !Covers(Occupants(p.live + [x]), a)
    {
      TakenCovers(p.free, i, n, a);
      CoversAppend(Occupants(p.live), b, a);
    }
  }

  function AfterTake(p: Pool, i: nat, id: string, n: Bytes): Pool
    requires i < |p.free| && 0 < n <= p.free[i].bytes
  {
    Pool(p.capacity, p.used + n, Taken(p.free, i, n), p.live + [Allocation(id, Block(p.free[i].offset, n))])
  }

  lemma TakeMeetsSpec(p: Pool, i: nat, id: string, n: Bytes)
    requires Tiled(p) && ValidName(id) && !Names(p.live, id)
    requires i < |p.free| && 0 < n <= p.free[i].bytes && forall j :: 0 <= j < i ==> p.free[j].bytes < n
    ensures p.free[i].End() <= p.capacity && 0 <= p.used <= p.capacity - n
    ensures Allocates(p, id, n, AllocationResult(NoError, p.free[i].offset, n), AfterTake(p, i, id, n))
  {
    FirstFitIsLowest(p, i, n);
    FreeBlockEnds(p, i);
    TakenIsTiled(p, i, id, n);
    SumRemove(p.free, i);
  }

  // ---------------------------------------------------- the proof of release

  lemma {:induction false} WithoutAt(live: seq<Allocation>, i: nat)
    requires DistinctIds(live) && i < |live|
    ensures Without(live, live[i].id) == live[..i] + live[i + 1..]
  {
    if i > 0 {
      WithoutAt(live[1..], i - 1);
      assert live[..i] + live[i + 1..] == [live[0]] + (live[1..][..i - 1] + live[1..][i..]);
    }
  }

  /** Any canonical list that covers the old free addresses and the freed block is the free list
      after the release. */
  lemma ReleasedIsTiled(p: Pool, i: nat, merged: seq<Block>)
    requires Tiled(p) && i < |p.live|
    requires Canonical(merged) && SameCover(merged, p.free + [p.live[i].block])
    requires SumOf(merged) == SumOf(p.free + [p.live[i].block])
    ensures Tiled(Pool(p.capacity, p.used - p.live[i].block.bytes, merged, p.live[..i] + p.live[i + 1..]))
  {
    SumAppend(p.free, p.live[i].block);
    RestIsApart(p, i);
    RestIsNamed(p, i);
    forall a ensures Covers(merged, a)
                <==> 0 <= a < p.capacity && !Covers(Occupants(p.live[..i] + p.live[i + 1..]), a)
    {
      ReleasedCovers(p, i, merged, a);
    }
  }

  lemma ReleasedCovers(p: Pool, i: nat, merged: seq<Block>, a: int)
    requires Tiled(p) && i < |p.live| && SameCover(merged, p.free + [p.live[i].block])
    ensures Covers(merged, a) <==> 0 <= a < p.capacity && !Covers(Occupants(p.live[..i] + p.live[i + 1..]), a)
  {
    var all := Occupants(p.live);
    CoversAppend(p.free, all[i], a);
    RemovedCovers(all, i, a);
    assert Occupants(p.live[..i] + p.live[i + 1..]) == all[..i] + all[i + 1..];
    assert all[i].Holds(a) ==> Covers(all, a);
    BlockInside(p, i, a);
  }

  lemma BlockInside(p: Pool, i: nat, a: int)
    requires Tiled(p) && i < |p.live|
    ensures p.live[i].block.Holds(a) ==> 0 <= a < p.capacity
  {
  }

  lemma RemovedIsApart(blocks: seq<Block>, i: nat)
    requires i < |blocks| && PairwiseApart(blocks)
    ensures PairwiseApart(blocks[..i] + blocks[i + 1..])
  {
    var t := blocks[..i] + blocks[i + 1..];
    forall j, k | 0 <= j < k < |t| ensures Apart(t[j], t[k]) {
      var j', k' := if j < i then j else j + 1, if k < i then k else k + 1;
      assert t[j] == blocks[j'] && t[k] == blocks[k'];
      assert Apart(blocks[j'], blocks[k']);
    }
  }

  lemma RestIsNamed(p: Pool, i: nat)
    requires Tiled(p) && i < |p.live|
    ensures var rest := p.live[..i] + p.live[i + 1..];
      && DistinctIds(rest)
      && (forall j :: 0 <= j < |rest| ==> ValidName(rest[j].id) && rest[j].block.End() <= p.capacity)
  {
    var rest := p.live[..i] + p.live[i + 1..];
    assert forall j :: 0 <= j < |rest| ==> rest[j] == p.live[if j < i then j else j + 1];
  }

  lemma RestIsApart(p: Pool, i: nat)
    requires Tiled(p) && i < |p.live|
    ensures var rest := p.live[..i] + p.live[i + 1..];
      && PairwiseApart(Occupants(rest))
      && SumOf(Occupants(rest)) == SumOf(Occupants(p.live)) - p.live[i].block.bytes
  {
    var all := Occupants(p.live);
    assert Occupants(p.live[..i] + p.live[i + 1..]) == all[..i] + all[i + 1..];
    SumRemove(all, i);
    RemovedIsApart(all, i);
  }

  /** The freed block meets no free block. */
  lemma FreedIsApart(p: Pool, i: nat)
    requires Tiled(p) && i < |p.live|
    ensures PairwiseApart(p.free + [p.live[i].block])
  {
    var b := p.live[i].block;
    assert Occupants(p.live)[i] == b;
    forall j | 0 <= j < |p.free| ensures Apart(p.free[j], b) {
      forall a ensures !(p.free[j].Holds(a) && b.Holds(a)) {
        assert p.free[j].Holds(a) ==> Covers(p.free, a);
        assert Occupants(p.live)[i].Holds(a) ==> Covers(Occupants(p.live), a);
      }
      UnsharedBlocksAreApart(p.free[j], b);
    }
  }

  lemma PrepareRelease(p: Pool, i: nat)
    requires Tiled(p) && i < |p.live|
    ensures PairwiseApart(p.free + [p.live[i].block])
    ensures forall j :: 0 <= j < |p.free| ==> p.free[j].End() <= p.capacity
    ensures forall j :: 0 <= j <= |p.free| ==> (p.free + [p.live[i].block])[j].End() <= MAX_BYTES
    ensures p.live[i].block.bytes <= p.used
  {
    FreedIsApart(p, i);
    RestIsApart(p, i);
    forall j | 0 <= j < |p.free| ensures p.free[j].End() <= p.capacity {
      FreeBlockEnds(p, j);
    }
  }

  lemma ReleaseMeetsSpec(p: Pool, i: nat, merged: seq<Block>)
    requires Tiled(p) && i < |p.live|
    requires Canonical(merged) && SameCover(merged, p.free + [p.live[i].block])
    requires SumOf(merged) == SumOf(p.free + [p.live[i].block])
    ensures var b := p.live[i].block;
      Releases(p, p.live[i].id, AllocationResult(NoError, b.offset, b.bytes),
               Pool(p.capacity, p.used - b.bytes, merged, p.live[..i] + p.live[i + 1..]))
  {
    ReleasedIsTiled(p, i, merged);
    WithoutAt(p.live, i);
  }

  // ------------------------------------------------------------- coalescing

  predicate Before(x: Block, y: Block) { x.offset < y.offset }

  /** Address order without overlap; neighbours may touch. */
  ghost predicate Ascending(blocks: seq<Block>) {
    && (forall i :: 0 <= i < |blocks| ==> blocks[i].bytes > 0)
    && (forall i, j :: 0 <= i < j < |blocks| ==> blocks[i].End() <= blocks[j].offset)
  }

  lemma PermutedPair(xs: seq<Block>, ys: seq<Block>, i: nat, j: nat)
    requires multiset(xs) == multiset(ys) && PairwiseApart(xs) && i < j < |ys|
    ensures ys[i].bytes > 0 && ys[j].bytes > 0 && Apart(ys[i], ys[j])
  {
    forall k, l | 0 <= k < l < |xs| ensures xs[k] != xs[l] {
      assert Apart(xs[k], xs[l]);
    }
    PermutedIsDistinct(xs, ys);
    assert ys[i] in multiset(xs) && ys[j] in multiset(xs);
    var k :| 0 <= k < |xs| && xs[k] == ys[i];
    var l :| 0 <= l < |xs| && xs[l] == ys[j];
    assert Apart(xs[if k < l then k else l], xs[if k < l then l else k]);
  }

  lemma SortedIsAscending(blocks: seq<Block>, sorted: seq<Block>)
    requires PairwiseApart(blocks) && multiset(sorted) == multiset(blocks) && SortedBy(Before, sorted)
    ensures Ascending(sorted) && SameCover(sorted, blocks)
  {
    forall i | 0 <= i < |sorted| ensures sorted[i].bytes > 0 {
      assert sorted[i] in multiset(blocks);
    }
    forall i, j | 0 <= i < j < |sorted| ensures sorted[i].End() <= sorted[j].offset {
      PermutedPair(blocks, sorted, i, j);
      assert !Before(sorted[j], sorted[i]);
    }
    forall a ensures Covers(sorted, a) <==> Covers(blocks, a) {
      if Covers(sorted, a) {
        var i :| 0 <= i < |sorted| && sorted[i].Holds(a);
        assert sorted[i] in multiset(blocks);
      }
      if Covers(blocks, a) {
        var i :| 0 <= i < |blocks| && blocks[i].Holds(a);
        assert blocks[i] in multiset(sorted);
      }
    }
  }

  lemma CoversWidened(merged: seq<Block>, b: Block, a: int)
    requires merged != [] && merged[|merged| - 1].End() == b.offset && b.End() <= MAX_BYTES && b.bytes > 0
    ensures var last := merged[|merged| - 1];
      Covers(merged[|merged| - 1 := Block(last.offset, last.bytes + b.bytes)], a)
      <==> Covers(merged, a) || b.Holds(a)
  {
    var k := |merged| - 1;
    var wide := merged[k := Block(merged[k].offset, merged[k].bytes + b.bytes)];
    if Covers(wide, a) {
      var i :| 0 <= i < |wide| && wide[i].Holds(a);
      assert i < k ==> merged[i].Holds(a);
      assert i == k ==> merged[k].Holds(a) || b.Holds(a);
    }
    if Covers(merged, a) {
      var i :| 0 <= i < |merged| && merged[i].Holds(a);
      assert wide[i].Holds(a);
    }
    if b.Holds(a) {
      assert wide[k].Holds(a);
    }
  }

  /** One round of the merge loop: a touching neighbour grows, any other block is appended. */
  function Absorb(merged: seq<Block>, b: Block): seq<Block> {
    if merged != [] && Wrap(merged[|merged| - 1].End()) == b.offset then
      var last := merged[|merged| - 1];
      merged[|merged| - 1 := Block(last.offset, Wrap(last.bytes + b.bytes))]
    else
      merged + [b]
  }

  /** The merge loop as a whole. */
  function Absorbed(sorted: seq<Block>): seq<Block> {
    if sorted == [] then [] else Absorb(Absorbed(sorted[..|sorted| - 1]), sorted[|sorted| - 1])
  }

  lemma AbsorbIsCanonical(merged: seq<Block>, b: Block)
    requires Canonical(merged) && b.bytes > 0 && b.End() <= MAX_BYTES
    requires merged != [] ==> merged[|merged| - 1].End() <= b.offset
    ensures Canonical(Absorb(merged, b))
    ensures var grown := Absorb(merged, b); grown != [] && grown[|grown| - 1].End() == b.End()
    ensures SumOf(Absorb(merged, b)) == SumOf(merged) + b.bytes
    ensures forall a :: Covers(Absorb(merged, b), a) <==> Covers(merged, a) || b.Holds(a)
  {
    var k := |merged| - 1;
    if merged != [] && merged[k].End() == b.offset {
      SumUpdate(merged, k, Block(merged[k].offset, merged[k].bytes + b.bytes));
      forall a ensures Covers(Absorb(merged, b), a) <==> Covers(merged, a) || b.Holds(a) {
        CoversWidened(merged, b, a);
      }
    } else {
      SumAppend(merged, b);
      forall a ensures Covers(Absorb(merged, b), a) <==> Covers(merged, a) || b.Holds(a) {
        CoversAppend(merged, b, a);
      }
    }
  }

  /** What the merge loop keeps after i blocks. */
  ghost predicate MergedSoFar(sorted: seq<Block>, i: nat, merged: seq<Block>)
    requires i <= |sorted|
  {
    && Canonical(merged)
    && SameCover(merged, sorted[..i])
    && SumOf(merged) == SumOf(sorted[..i])
    && (i > 0 <==> merged != [])
    && (i > 0 ==> merged[|merged| - 1].End() == sorted[i - 1].End())
  }

  lemma MergeRound(sorted: seq<Block>, i: nat, merged: seq<Block>)
    requires Ascending(sorted) && i < |sorted| && sorted[i].End() <= MAX_BYTES && MergedSoFar(sorted, i, merged)
    ensures MergedSoFar(sorted, i + 1, Absorb(merged, sorted[i]))
  {
    var b, grown := sorted[i], Absorb(merged, sorted[i]);
    AbsorbIsCanonical(merged, b);
    PrefixGrows(sorted, i);
    assert SameCover(grown, sorted[..i + 1]);
  }

  lemma PrefixGrows(blocks: seq<Block>, i: nat)
    requires i < |blocks|
    ensures SumOf(blocks[..i + 1]) == SumOf(blocks[..i]) + blocks[i].bytes
    ensures forall a :: Covers(blocks[..i + 1], a) <==> Covers(blocks[..i], a) || blocks[i].Holds(a)
  {
    assert blocks[..i + 1] == blocks[..i] + [blocks[i]];
    SumAppend(blocks[..i], blocks[i]);
    forall a ensures Covers(blocks[..i + 1], a) <==> Covers(blocks[..i], a) || blocks[i].Holds(a) {
      CoversAppend(blocks[..i], blocks[i], a);
    }
  }

  /** Merged from ascending blocks, the list is canonical and covers the same addresses. */
  lemma {:induction false} AbsorbedSoFar(sorted: seq<Block>, i: nat)
    requires Ascending(sorted) && i <= |sorted| && forall j :: 0 <= j < |sorted| ==> sorted[j].End() <= MAX_BYTES
    ensures MergedSoFar(sorted, i, Absorbed(sorted[..i]))
  {
    hide MergedSoFar, Ascending, Absorb;
    if i == 0 {
      NothingMerged(sorted);
    } else {
      AbsorbedSoFar(sorted, i - 1);
      MergeRound(sorted, i - 1, Absorbed(sorted[..i - 1]));
      assert sorted[..i][..i - 1] == sorted[..i - 1];
    }
  }

  lemma NothingMerged(sorted: seq<Block>)
    ensures MergedSoFar(sorted, 0, Absorbed(sorted[..0]))
  {
  }

  lemma AbsorbedIsCanonical(sorted: seq<Block>)
    requires Ascending(sorted) && forall j :: 0 <= j < |sorted| ==> sorted[j].End() <= MAX_BYTES
    ensures Canonical(Absorbed(sorted)) && SameCover(Absorbed(sorted), sorted)
    ensures SumOf(Absorbed(sorted)) == SumOf(sorted)
  {
    AbsorbedSoFar(sorted, |sorted|);
    assert sorted[..|sorted|] == sorted;
  }

  method MergeOne(merged: seq<Block>, block: Block) returns (grown: seq<Block>)
    requires block.End() <= MAX_BYTES
    requires merged != [] ==> merged[|merged| - 1].End() <= MAX_BYTES
    ensures grown == Absorb(merged, block)
  {
    if merged != [] {
      var last := merged[|merged| - 1];
      var end: Bytes := last.offset + last.bytes;
      if end == block.offset {
        var bytes: Bytes := last.bytes + block.bytes;
        return merged[|merged| - 1 := Block(last.offset, bytes)];
      }
    }
    grown := merged + [block];
  }

  /** The merge loop: neighbours that touch become one block. */
  method Merge(sorted: seq<Block>) returns (merged: seq<Block>)
    requires Ascending(sorted) && forall i :: 0 <= i < |sorted| ==> sorted[i].End() <= MAX_BYTES
    ensures merged == Absorbed(sorted)
    ensures Canonical(merged) && SameCover(merged, sorted) && SumOf(merged) == SumOf(sorted)
  {
    merged := [];
    for i := 0 to |sorted|
      invariant merged == Absorbed(sorted[..i])
    {
      AbsorbedSoFar(sorted, i);
      assert sorted[..i + 1][..i] == sorted[..i];
      merged := MergeOne(merged, sorted[i]);
    }
    assert sorted[..|sorted|] == sorted;
    AbsorbedIsCanonical(sorted);
  }

  // --------------------------------------------------------------- the steps

  /** The first block that is long enough; the length of the list when there is none. */
  function FirstFit(free: seq<Block>, n: Bytes): (i: nat)
    ensures i <= |free| && forall j :: 0 <= j < i ==> free[j].bytes < n
    ensures i < |free| ==> free[i].bytes >= n
  {
    if free == [] || free[0].bytes >= n then 0 else 1 + FirstFit(free[1..], n)
  }

  function IndexOf(live: seq<Allocation>, id: string): (i: nat)
    ensures i <= |live| && forall j :: 0 <= j < i ==> live[j].id != id
    ensures i < |live| ==> live[i].id == id
  {
    if live == [] || live[0].id == id then 0 else 1 + IndexOf(live[1..], id)
  }

  /** One call of allocate, operation by operation. */
  function AllocateStep(p: Pool, id: string, n: Bytes): (AllocationResult, Pool) {
    if !ValidName(id) then (Rejected(InvalidId), p)
    else if n == 0 then (Rejected(InvalidSize), p)
    else if Names(p.live, id) then (Rejected(DuplicateAllocation), p)
    else
      var i := FirstFit(p.free, n);
      if i == |p.free| then (Rejected(OutOfMemory), p)
      else (AllocationResult(NoError, p.free[i].offset, n), AfterTake(p, i, id, n))
  }

  /** What the library sort may make of a free list. */
  ghost predicate Sorts(blocks: seq<Block>, sorted: seq<Block>) {
    multiset(sorted) == multiset(blocks) && SortedBy(Before, sorted)
  }

  /** One call of release, operation by operation. */
  ghost predicate ReleaseStep(p: Pool, id: string, r: AllocationResult, q: Pool) {
    var i := IndexOf(p.live, id);
    if i == |p.live| then r == Rejected(UnknownAllocation) && q == p
    else
      var b := p.live[i].block;
      && r == AllocationResult(NoError, b.offset, b.bytes)
      && exists sorted :: Sorts(p.free + [b], sorted) &&
           q == Pool(p.capacity, p.used - b.bytes, Absorbed(sorted), p.live[..i] + p.live[i + 1..])
  }

  /** In a tiled pool an allocation keeps the tiling and gives the answer asked for. */
  lemma AllocateStepMeetsSpec(p: Pool, id: string, n: Bytes)
    requires Tiled(p)
    ensures var (r, q) := AllocateStep(p, id, n); Tiled(q) && q.capacity == p.capacity && Allocates(p, id, n, r, q)
  {
    hide Tiled, Canonical, Room, Covers;
    var i := FirstFit(p.free, n);
    if ValidName(id) && n > 0 && !Names(p.live, id) {
      if i == |p.free| {
        NoFitMeansNoRoom(p, n);
      } else {
        TakeMeetsSpec(p, i, id, n);
        FirstFitIsLowest(p, i, n);
      }
    }
  }

  /** In a tiled pool a release keeps the tiling and gives the answer asked for. */
  lemma ReleaseStepMeetsSpec(p: Pool, id: string, r: AllocationResult, q: Pool)
    requires Tiled(p) && ReleaseStep(p, id, r, q)
    ensures Tiled(q) && q.capacity == p.capacity && Releases(p, id, r, q)
  {
    hide Tiled, Canonical, Covers, Absorbed, SameCover, PairwiseApart, Ascending;
    var i := IndexOf(p.live, id);
    if i < |p.live| {
      var b := p.live[i].block;
      var sorted :| Sorts(p.free + [b], sorted) &&
        q == Pool(p.capacity, p.used - b.bytes, Absorbed(sorted), p.live[..i] + p.live[i + 1..]);
      PrepareRelease(p, i);
      CoalescedIsCanonical(p.free + [b], sorted);
      ReleaseMeetsSpec(p, i, Absorbed(sorted));
      NamedAt(p.live, i);
    }
  }

  lemma NamedAt(live: seq<Allocation>, i: nat)
    requires i < |live|
    ensures Names(live, live[i].id)
  {
  }

  lemma CoalescedIsCanonical(blocks: seq<Block>, sorted: seq<Block>)
    requires PairwiseApart(blocks) && Sorts(blocks, sorted)
    requires forall j :: 0 <= j < |blocks| ==> blocks[j].End() <= MAX_BYTES
    ensures Ascending(sorted) && forall j :: 0 <= j < |sorted| ==> sorted[j].End() <= MAX_BYTES
    ensures Canonical(Absorbed(sorted)) && SameCover(Absorbed(sorted), blocks)
    ensures SumOf(Absorbed(sorted)) == SumOf(blocks)
  {
    SortedIsAscending(blocks, sorted);
    SumPermutes(sorted, blocks);
    forall j | 0 <= j < |sorted| ensures sorted[j].End() <= MAX_BYTES {
      assert sorted[j] in multiset(blocks);
    }
    AbsorbedIsCanonical(sorted);
  }

  lemma FitIsFirst(free: seq<Block>, n: Bytes, i: nat)
    requires i <= |free| && forall j :: 0 <= j < i ==> free[j].bytes < n
    requires i < |free| ==> free[i].bytes >= n
    ensures FirstFit(free, n) == i
  {
  }

  lemma IndexIsFirst(live: seq<Allocation>, id: string, i: nat)
    requires i <= |live| && forall j :: 0 <= j < i ==> live[j].id != id
    requires i < |live| ==> live[i].id == id
    ensures IndexOf(live, id) == i
  {
  }

  // -------------------------------------------------------------- the class

  class MemoryAllocator {
    const capacity: Bytes
    var used: Bytes
    var freeBlocks: seq<Block>
    var allocations: seq<Allocation>

    ghost function State(): Pool
      reads this
    {
      Pool(capacity, used, freeBlocks, allocations)
    }

    constructor (capacity: Bytes)
      requires capacity > 0
      ensures State() == Initial(capacity) && Tiled(State())
    {
      this.capacity := capacity;
      used, freeBlocks, allocations := 0, [Block(0, capacity)], [];
      InitialIsTiled(capacity);
    }

    /** Construction as callers see it: a zero capacity is refused. */
    static method Create(capacity: Bytes) returns (allocator: MemoryAllocator?)
      ensures allocator == null <==> capacity == 0
      ensures allocator != null ==> fresh(allocator) && allocator.State() == Initial(capacity) && Tiled(allocator.State())
    {
      if capacity == 0 {
        return null;
      }
      allocator := new MemoryAllocator(capacity);
    }

    /** The chosen block gives up its first addresses, and goes when nothing is left of it. */
    method Carve(i: nat, bytes: Bytes)
      requires i < |freeBlocks| && 0 < bytes <= freeBlocks[i].bytes && freeBlocks[i].End() <= MAX_BYTES
      modifies this`freeBlocks
      ensures freeBlocks == Taken(old(freeBlocks), i, bytes)
    {
      var next: Bytes, left: Bytes := freeBlocks[i].offset + bytes, freeBlocks[i].bytes - bytes;
      freeBlocks := freeBlocks[i := Block(next, left)];
      if left == 0 {
        freeBlocks := freeBlocks[..i] + freeBlocks[i + 1..];
      }
    }

    method Allocate(id: string, bytes: Bytes) returns (r: AllocationResult)
      requires Tiled(State())
      modifies this
      ensures (r, State()) == AllocateStep(old(State()), id, bytes)
      ensures Tiled(State()) && Allocates(old(State()), id, bytes, r, State())
    {
      hide Tiled, Canonical, Covers, Allocates;
      AllocateStepMeetsSpec(State(), id, bytes);
      if !ValidName(id) {
        return Rejected(InvalidId);
      }
      if bytes == 0 {
        return Rejected(InvalidSize);
      }
      if Names(allocations, id) {
        return Rejected(DuplicateAllocation);
      }
      var i := 0;
      while i < |freeBlocks| && freeBlocks[i].bytes < bytes
        invariant 0 <= i <= |freeBlocks|
        invariant forall j :: 0 <= j < i ==> freeBlocks[j].bytes < bytes
      {
        i := i + 1;
      }
      FitIsFirst(freeBlocks, bytes, i);
      if i == |freeBlocks| {
        return Rejected(OutOfMemory);
      }
      TakeMeetsSpec(State(), i, id, bytes);
      var offset := freeBlocks[i].offset;
      Carve(i, bytes);
      allocations := allocations + [Allocation(id, Block(offset, bytes))];
      used := used + bytes;
      assert State() == AfterTake(old(State()), i, id, bytes);
      r := AllocationResult(NoError, offset, bytes);
    }

    method Coalesce()
      requires PairwiseApart(freeBlocks) && forall i :: 0 <= i < |freeBlocks| ==> freeBlocks[i].End() <= MAX_BYTES
      modifies this`freeBlocks
      ensures exists sorted :: Sorts(old(freeBlocks), sorted) && freeBlocks == Absorbed(sorted)
      ensures Canonical(freeBlocks) && SameCover(freeBlocks, old(freeBlocks))
      ensures SumOf(freeBlocks) == SumOf(old(freeBlocks))
    {
      var sorted := Sort(freeBlocks, Before);
      CoalescedIsCanonical(freeBlocks, sorted);
      freeBlocks := Merge(sorted);
    }

    method Release(id: string) returns (r: AllocationResult)
      requires Tiled(State())
      modifies this
      ensures ReleaseStep(old(State()), id, r, State())
      ensures Tiled(State()) && Releases(old(State()), id, r, State())
    {
      hide Tiled, Canonical, SameCover, Absorbed, PairwiseApart, Sorts, Releases;
      var i := 0;
      while i < |allocations| && allocations[i].id != id
        invariant 0 <= i <= |allocations|
        invariant forall j :: 0 <= j < i ==> allocations[j].id != id
      {
        i := i + 1;
      }
      IndexIsFirst(allocations, id, i);
      if i == |allocations| {
        r := Rejected(UnknownAllocation);
        ReleaseStepMeetsSpec(State(), id, r, State());
        return;
      }
      var block := allocations[i].block;
      r := AllocationResult(NoError, block.offset, block.bytes);
      PrepareRelease(State(), i);
      freeBlocks := freeBlocks + [block];
      Coalesce();
      used := used - block.bytes;
      allocations := allocations[..i] + allocations[i + 1..];
      ReleaseStepMeetsSpec(old(State()), id, r, State());
    }
  }

  // ------------------------------------------------------------ the promises

  /** The two relations leave no freedom: answer and resulting pool are determined. */
  lemma OutcomeIsDetermined(p: Pool, id: string, n: Bytes, r: AllocationResult, q: Pool, r': AllocationResult, q': Pool)
    requires Tiled(p)
    requires (Allocates(p, id, n, r, q) && Allocates(p, id, n, r', q')) || (Releases(p, id, r, q) && Releases(p, id, r', q'))
    ensures r == r' && q == q'
  {
    hide Tiled, Allocates, Releases;
    if Allocates(p, id, n, r, q) && Allocates(p, id, n, r', q') {
      AllocationIsDetermined(p, id, n, r, q, r', q');
    } else {
      ReleaseIsDetermined(p, id, r, q, r', q');
    }
  }

  lemma AllocationIsDetermined(p: Pool, id: string, n: Bytes, r: AllocationResult, q: Pool, r': AllocationResult, q': Pool)
    requires Allocates(p, id, n, r, q) && Allocates(p, id, n, r', q')
    ensures r == r' && q == q'
  {
    hide Tiled, Room, Names, ValidName;
    if q.live == q'.live && Tiled(q) && Tiled(q') && q.capacity == q'.capacity {
      LiveDeterminesPool(q, q');
    }
  }

  lemma ReleaseIsDetermined(p: Pool, id: string, r: AllocationResult, q: Pool, r': AllocationResult, q': Pool)
    requires Tiled(p) && Releases(p, id, r, q) && Releases(p, id, r', q')
    ensures r == r' && q == q'
  {
    hide Canonical, Covers, SumOf, PairwiseApart, Names, ValidName;
    if q.live == q'.live && Tiled(q) && Tiled(q') && q.capacity == q'.capacity {
      LiveDeterminesPool(q, q');
    }
  }

  lemma {:induction false} WithoutUnnamed(live: seq<Allocation>, id: string)
    requires !Names(live, id)
    ensures Without(live, id) == live
  {
    if live != [] {
      assert live[0].id != id;
      forall i | 0 <= i < |live[1..]| ensures live[1..][i].id != id {
        assert live[i + 1].id != id;
      }
      WithoutUnnamed(live[1..], id);
    }
  }

  /** Release undoes allocate: the whole pool, free list included, is as it was. */
  lemma AllocateThenRelease(p: Pool, id: string, n: Bytes, r: AllocationResult, q: Pool, r': AllocationResult, q': Pool)
    requires Tiled(p) && Allocates(p, id, n, r, q) && r.error == NoError
    requires Releases(q, id, r', q')
    ensures r' == r && q' == p
  {
    var k := |p.live|;
    assert q.live[k].id == id;
    WithoutAt(q.live, k);
    assert q.live[..k] + q.live[k + 1..] == p.live;
    LiveDeterminesPool(q', p);
  }

  lemma {:induction false} WithoutCommutes(live: seq<Allocation>, a: string, b: string)
    ensures Without(Without(live, a), b) == Without(Without(live, b), a)
  {
    if live != [] {
      WithoutCommutes(live[1..], a, b);
    }
  }

  lemma OneAllocationPerId(live: seq<Allocation>, x: Allocation, y: Allocation)
    requires DistinctIds(live) && x in live && y in live && x.id == y.id
    ensures x == y
  {
  }

  lemma StillNamed(live: seq<Allocation>, id: string, other: string)
    requires Names(live, other) && other != id
    ensures Names(Without(live, id), other)
  {
    var i :| 0 <= i < |live| && live[i].id == other;
    WithoutElement(live, id, live[i]);
    var j :| 0 <= j < |Without(live, id)| && Without(live, id)[j] == live[i];
  }

  /** The order of two releases does not matter. */
  lemma ReleasesCommute(p: Pool, a: string, b: string,
                        r1: AllocationResult, p1: Pool, r2: AllocationResult, p12: Pool,
                        s2: AllocationResult, p2: Pool, s1: AllocationResult, p21: Pool)
    requires Tiled(p) && Names(p.live, a) && Names(p.live, b) && a != b
    requires Releases(p, a, r1, p1) && Releases(p1, b, r2, p12)
    requires Releases(p, b, s2, p2) && Releases(p2, a, s1, p21)
    ensures p12 == p21 && r1 == s1 && r2 == s2
  {
    WithoutCommutes(p.live, a, b);
    StillNamed(p.live, a, b);
    StillNamed(p.live, b, a);
    LiveDeterminesPool(p12, p21);
    WithoutElement(p.live, a, Allocation(b, Block(r2.offset, r2.bytes)));
    WithoutElement(p.live, b, Allocation(a, Block(s1.offset, s1.bytes)));
    OneAllocationPerId(p.live, Allocation(a, Block(r1.offset, r1.bytes)), Allocation(a, Block(s1.offset, s1.bytes)));
    OneAllocationPerId(p.live, Allocation(b, Block(r2.offset, r2.bytes)), Allocation(b, Block(s2.offset, s2.bytes)));
  }

  lemma {:induction false} WithoutElement(live: seq<Allocation>, id: string, x: Allocation)
    ensures x in Without(live, id) ==> x in live
    ensures x in live && x.id != id ==> x in Without(live, id)
  {
    if live != [] {
      WithoutElement(live[1..], id, x);
    }
  }

  lemma {:induction false} WithoutForgets(live: seq<Allocation>, id: string)
    requires DistinctIds(live)
    ensures !Names(Without(live, id), id)
  {
    if live != [] {
      if live[0].id == id {
        assert forall i :: 0 <= i < |live| - 1 ==> live[1..][i] == live[i + 1];
      } else {
        WithoutForgets(live[1..], id);
        assert forall i :: 1 <= i < |Without(live, id)| ==> Without(live, id)[i] == Without(live[1..], id)[i - 1];
      }
    }
  }

  /** Every address is in exactly one free block or exactly one live allocation. */
  lemma EveryAddressHasOneOwner(p: Pool, a: int)
    requires Tiled(p) && 0 <= a < p.capacity
    ensures Covers(p.free, a) <==> !Covers(Occupants(p.live), a)
    ensures forall i, j :: 0 <= i < |p.free| && 0 <= j < |p.free| && p.free[i].Holds(a) && p.free[j].Holds(a) ==> i == j
    ensures forall i, j :: 0 <= i < |p.live| && 0 <= j < |p.live| && p.live[i].block.Holds(a) && p.live[j].block.Holds(a) ==> i == j
  {
    forall i, j | 0 <= i < j < |p.free| ensures !(p.free[i].Holds(a) && p.free[j].Holds(a)) {
      assert p.free[i].End() < p.free[j].offset;
    }
    forall i, j | 0 <= i < j < |p.live| ensures !(p.live[i].block.Holds(a) && p.live[j].block.Holds(a)) {
      assert Apart(Occupants(p.live)[i], Occupants(p.live)[j]);
    }
  }

  // -------------------------------------------------------------------- runs

  datatype Call = CallAllocate(id: string, bytes: Bytes) | CallRelease(id: string)

  /** The call as the code performs it. */
  ghost predicate Performs(p: Pool, call: Call, r: AllocationResult, q: Pool) {
    match call
    case CallAllocate(id, bytes) => (r, q) == AllocateStep(p, id, bytes)
    case CallRelease(id) => ReleaseStep(p, id, r, q)
  }

  /** The answer and the pool the call should give, in terms of address space. */
  ghost predicate Answers(p: Pool, call: Call, r: AllocationResult, q: Pool) {
    match call
    case CallAllocate(id, bytes) => Allocates(p, id, bytes, r, q)
    case CallRelease(id) => Releases(p, id, r, q)
  }

  /** pools[k] is the state before the k-th call. */
  ghost predicate IsRun(pools: seq<Pool>, calls: seq<Call>, answers: seq<AllocationResult>) {
    && |pools| == |calls| + 1 && |answers| == |calls|
    && forall k :: 0 <= k < |calls| ==> Performs(pools[k], calls[k], answers[k], pools[k + 1])
  }

  lemma StepKeepsTiling(p: Pool, call: Call, r: AllocationResult, q: Pool)
    requires Tiled(p) && Performs(p, call, r, q)
    ensures Tiled(q) && q.capacity == p.capacity && Answers(p, call, r, q)
  {
    hide Tiled, AllocateStep, ReleaseStep, Allocates, Releases;
    match call
    case CallAllocate(id, bytes) => AllocateStepMeetsSpec(p, id, bytes);
    case CallRelease(id) => ReleaseStepMeetsSpec(p, id, r, q);
  }

  /** Whatever is called, the pool stays tiled and every answer is the right one. */
  lemma {:induction false} RunStaysTiled(pools: seq<Pool>, calls: seq<Call>, answers: seq<AllocationResult>, k: nat)
    requires IsRun(pools, calls, answers) && Tiled(pools[0]) && k <= |calls|
    ensures Tiled(pools[k]) && pools[k].capacity == pools[0].capacity
    ensures forall j :: 0 <= j < k ==> Answers(pools[j], calls[j], answers[j], pools[j + 1])
  {
    hide Tiled, Performs, Answers;
    if k > 0 {
      RunStaysTiled(pools, calls, answers, k - 1);
      StepKeepsTiling(pools[k - 1], calls[k - 1], answers[k - 1], pools[k]);
    }
  }

  /** However a run got there, with nothing live the allocator is exactly as new. */
  lemma DrainedRunIsAsNew(pools: seq<Pool>, calls: seq<Call>, answers: seq<AllocationResult>, k: nat)
    requires IsRun(pools, calls, answers) && Tiled(pools[0]) && k <= |calls| && pools[k].live == []
    ensures pools[k] == Initial(pools[0].capacity)
  {
    RunStaysTiled(pools, calls, answers, k);
    InitialIsTiled(pools[0].capacity);
    LiveDeterminesPool(pools[k], Initial(pools[0].capacity));
  }

  lemma ReleaseRemoves(p: Pool, id: string, r: AllocationResult, q: Pool, x: Allocation)
    requires Tiled(p) && Releases(p, id, r, q) && x in q.live
    ensures x in p.live && x.id != id
  {
    if Names(p.live, id) {
      WithoutElement(p.live, id, x);
      WithoutForgets(p.live, id);
    }
    var i :| 0 <= i < |q.live| && q.live[i] == x;
  }

  lemma {:induction false} ReleasedStaysOut(pools: seq<Pool>, calls: seq<Call>, answers: seq<AllocationResult>, k: nat,
                                           x: Allocation)
    requires IsRun(pools, calls, answers) && Tiled(pools[0]) && k <= |calls| && x in pools[k].live
    requires forall j :: 0 <= j < |calls| ==> calls[j].CallRelease?
    ensures x in pools[0].live && forall j :: 0 <= j < k ==> calls[j].id != x.id
  {
    hide Tiled, Performs, Releases, Allocates;
    if k > 0 {
      RunStaysTiled(pools, calls, answers, k);
      RunStaysTiled(pools, calls, answers, k - 1);
      assert Answers(pools[k - 1], calls[k - 1], answers[k - 1], pools[k - 1 + 1]);
      ReleaseRemoves(pools[k - 1], calls[k - 1].id, answers[k - 1], pools[k], x);
      ReleasedStaysOut(pools, calls, answers, k - 1, x);
    }
  }

  /** Releasing every live id, in any order, leaves one free block spanning the address space. */
  lemma ReleasingAllLeavesOneBlock(pools: seq<Pool>, calls: seq<Call>, answers: seq<AllocationResult>)
    requires IsRun(pools, calls, answers) && Tiled(pools[0])
    requires forall j :: 0 <= j < |calls| ==> calls[j].CallRelease?
    requires forall x :: x in pools[0].live ==> exists j :: 0 <= j < |calls| && calls[j].id == x.id
    ensures pools[|calls|] == Initial(pools[0].capacity)
    ensures pools[|calls|].free == [Block(0, pools[0].capacity)]
  {
    var last := pools[|calls|];
    if |last.live| > 0 {
      ReleasedStaysOut(pools, calls, answers, |calls|, last.live[0]);
    }
    DrainedRunIsAsNew(pools, calls, answers, |calls|);
  }
}
