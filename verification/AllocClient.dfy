/** The allocator as its clients see it: blocks of bytes that do not disturb each other, whatever
    sequence of calls and writes is made. */
module AllocClient {
  import opened AllocSizes
  import opened AllocShape
  import opened AllocSegments
  import opened AllocState
  import opened AllocFree
  import opened AllocSystem
  import opened AllocRealloc
  import opened AllocHeap

  /** A block the client holds: what it asked for, and the bytes it wrote. */
  datatype Block = Block(size: nat, known: map<nat, bv8>)

  function Prefix(known: map<nat, bv8>, n: nat): map<nat, bv8> { map k | k in known && k < n :: known[k] }

  ghost predicate BlockOk(s: State, d: map<nat, bv8>, m: nat, b: Block) {
    && m >= 16 && m - 16 in s.live && Is(s.t, m - 16) && b.size + CHUNK_OVERHEAD <= s.t.head[m - 16].size
    && forall k <- b.known :: k < b.size && m + k in d && d[m + k] == b.known[k]
  }

  /** The heap's live chunks are the client's blocks, and hold the bytes it wrote. */
  ghost predicate Agrees(s: State, d: map<nat, bv8>, blocks: map<nat, Block>) {
    && (forall m <- blocks :: BlockOk(s, d, m, blocks[m]))
    && (forall a <- s.live :: a + 16 in blocks)
  }

  lemma BlockKept(s: State, d: map<nat, bv8>, s2: State, d2: map<nat, bv8>, m: nat, b: Block)
    requires BlockOk(s, d, m, b) && KeptAt(s, d, s2, d2, m - 16)
    ensures BlockOk(s2, d2, m, b)
  {
    forall k | k in b.known ensures m + k in d2 && d2[m + k] == b.known[k] {
      assert InPayload(m - 16, s.t.head[m - 16].size, m + k);
      assert Same(d, d2, m + k);
    }
  }

  lemma BlockAt(s: State, d: map<nat, bv8>, blocks: map<nat, Block>, m: nat)
    requires Agrees(s, d, blocks) && m in blocks
    ensures BlockOk(s, d, m, blocks[m]) && m >= 16 && m - 16 in s.live
  {
  }

  /** Blocks that a call does not touch. */
  lemma OthersKept(s: State, d: map<nat, bv8>, s2: State, d2: map<nat, bv8>, but: set<nat>, blocks: map<nat, Block>)
    requires Agrees(s, d, blocks) && LiveKept(s, d, s2, d2, but)
    ensures forall m <- blocks :: m < 16 || m - 16 in but || BlockOk(s2, d2, m, blocks[m])
  {
    hide KeptAt, BlockOk, Agrees;
    forall m | m in blocks && m >= 16 && m - 16 !in but ensures BlockOk(s2, d2, m, blocks[m]) {
      BlockAt(s, d, blocks, m);
      BlockKept(s, d, s2, d2, m, blocks[m]);
    }
  }

  /** The blocks agree when each does and there are as many live chunks. */
  lemma AgreesWith(s: State, d: map<nat, bv8>, blocks: map<nat, Block>, s2: State, d2: map<nat, bv8>,
                   blocks2: map<nat, Block>)
    requires Agrees(s, d, blocks) && (forall m <- blocks2 :: BlockOk(s2, d2, m, blocks2[m]))
    requires forall a <- s2.live :: a in s.live && a + 16 in blocks ==> a + 16 in blocks2
    requires forall a <- s2.live :: a !in s.live ==> a + 16 in blocks2
    ensures Agrees(s2, d2, blocks2)
  {
    hide BlockOk;
  }

  lemma AgreesGranted(s: State, d: map<nat, bv8>, s2: State, d2: map<nat, bv8>, p: nat, nsize: nat,
                      blocks: map<nat, Block>)
    requires Agrees(s, d, blocks) && Granted(s, d, s2, d2, p, Request2Size(nsize))
    ensures p + 16 !in blocks && Agrees(s2, d2, blocks[p + 16 := Block(nsize, map[])])
  {
    hide Agrees, LiveKept;
    PaddedFits(nsize);
    if p + 16 in blocks {
      BlockAt(s, d, blocks, p + 16);
    }
    OthersKept(s, d, s2, d2, {}, blocks);
    assert BlockOk(s2, d2, p + 16, Block(nsize, map[]));
    hide BlockOk;
    forall m | m in blocks ensures m >= 16 {
      BlockAt(s, d, blocks, m);
    }
    AgreesWith(s, d, blocks, s2, d2, blocks[p + 16 := Block(nsize, map[])]);
  }

  lemma AgreesReleased(s: State, d: map<nat, bv8>, s2: State, d2: map<nat, bv8>, p: nat, blocks: map<nat, Block>)
    requires Agrees(s, d, blocks) && Released(s, d, s2, d2, p) && p + 16 in blocks
    ensures Agrees(s2, d2, blocks - {p + 16})
  {
    hide Agrees, LiveKept, BlockOk, FreeAround;
    OthersKept(s, d, s2, d2, {p}, blocks);
    forall m | m in blocks ensures m >= 16 {
      BlockAt(s, d, blocks, m);
    }
    AgreesWith(s, d, blocks, s2, d2, blocks - {p + 16});
  }

  lemma MovedBlock(s: State, d: map<nat, bv8>, s2: State, d2: map<nat, bv8>, p: nat, q: nat, nsize: nat, b: Block)
    requires BlockOk(s, d, p + 16, b) && Moved(s, d, s2, d2, p, q, nsize)
    ensures BlockOk(s2, d2, q + 16, Block(nsize, Prefix(b.known, nsize)))
  {
    hide LiveKept;
    forall k | k in b.known && k < nsize ensures q + 16 + k in d2 && d2[q + 16 + k] == b.known[k] {
      assert ByteKept(d, p, d2, q, k);
    }
  }

  lemma AgreesMoved(s: State, d: map<nat, bv8>, s2: State, d2: map<nat, bv8>, p: nat, q: nat, nsize: nat,
                    blocks: map<nat, Block>)
    requires Agrees(s, d, blocks) && Moved(s, d, s2, d2, p, q, nsize) && p + 16 in blocks
    ensures q == p || q + 16 !in blocks
    ensures Agrees(s2, d2, (blocks - {p + 16})[q + 16 := Block(nsize, Prefix(blocks[p + 16].known, nsize))])
  {
    hide Agrees, LiveKept, BlockOk, BytesKept, Prefix;
    BlockAt(s, d, blocks, p + 16);
    if q + 16 in blocks {
      BlockAt(s, d, blocks, q + 16);
    }
    OthersKept(s, d, s2, d2, {p}, blocks);
    MovedBlock(s, d, s2, d2, p, q, nsize, blocks[p + 16]);
    forall m | m in blocks ensures m >= 16 {
      BlockAt(s, d, blocks, m);
    }
    AgreesWith(s, d, blocks, s2, d2, (blocks - {p + 16})[q + 16 := Block(nsize, Prefix(blocks[p + 16].known, nsize))]);
  }

  lemma WrittenOther(s: State, d: map<nat, bv8>, s2: State, m: nat, bm: Block, k: nat, v: bv8, x: nat, b: Block)
    requires Ok(s) && BlockOk(s, d, m, bm) && BlockOk(s, d, x, b) && x != m && k < bm.size && x - 16 in s2.live
    requires Is(s2.t, x - 16) && s2.t.head[x - 16].size == s.t.head[x - 16].size
    ensures BlockOk(s2, d[m + k := v], x, b)
  {
    hide Ok;
    forall j | j in b.known ensures x + j != m + k {
      assert InPayload(x - 16, s.t.head[x - 16].size, x + j) && InPayload(m - 16, s.t.head[m - 16].size, m + k);
      PayloadsDisjoint(s, m - 16, x - 16, m + k);
    }
  }

  lemma WrittenHere(s: State, d: map<nat, bv8>, s2: State, m: nat, b: Block, k: nat, v: bv8)
    requires BlockOk(s, d, m, b) && k < b.size && m - 16 in s2.live && Is(s2.t, m - 16)
             && s2.t.head[m - 16].size == s.t.head[m - 16].size
    ensures BlockOk(s2, d[m + k := v], m, Block(b.size, b.known[k := v]))
  {
  }

  lemma AgreesWritten(s: State, d: map<nat, bv8>, s2: State, m: nat, k: nat, v: bv8, blocks: map<nat, Block>)
    requires Ok(s) && Agrees(s, d, blocks) && m in blocks && k < blocks[m].size && s2.live == s.live
    requires forall a <- s.live :: Is(s.t, a) && Is(s2.t, a) && s2.t.head[a].size == s.t.head[a].size
    ensures Agrees(s2, d[m + k := v], blocks[m := Block(blocks[m].size, blocks[m].known[k := v])])
  {
    hide Ok, Agrees, BlockOk;
    BlockAt(s, d, blocks, m);
    forall x | x in blocks && x != m ensures BlockOk(s2, d[m + k := v], x, blocks[x]) {
      BlockAt(s, d, blocks, x);
      WrittenOther(s, d, s2, m, blocks[m], k, v, x, blocks[x]);
    }
    WrittenHere(s, d, s2, m, blocks[m], k, v);
    AgreesWith(s, d, blocks, s2, d[m + k := v], blocks[m := Block(blocks[m].size, blocks[m].known[k := v])]);
  }

  /** Blocks are aligned and apart. */
  lemma BlocksApart(s: State, d: map<nat, bv8>, blocks: map<nat, Block>, m: nat, x: nat)
    requires Ok(s) && Agrees(s, d, blocks) && m in blocks && x in blocks && m < x
    ensures m % 8 == 0 && m + blocks[m].size <= x
  {
    hide SegsOk, FreeAgree, BitsAgree, FeetAgree, EndsOk, TopOk;
    assert BlockOk(s, d, m, blocks[m]) && BlockOk(s, d, x, blocks[x]);
    ChunkFacts(s.t, m - 16);
    assert Border(s.t, x - 16);
  }

  datatype Call =
    | Alloc(ptr: nat, nsize: nat, sys: Answer)
    | Write(mem: nat, k: nat, v: bv8, h: Head, f: nat)

  class Client {
    const heap: Heap
    var blocks: map<nat, Block>

    ghost predicate Valid()
      reads this, heap, heap.bins
    {
      heap.Valid() && Agrees(heap.Snap(), heap.data, blocks)
    }

    constructor (base: nat)
      requires Unmapped([], base, GRANULARITY)
      ensures Valid() && blocks == map[] && fresh(heap) && fresh(heap.bins)
    {
      heap := new Heap(base);
      blocks := map[];
    }

    /** What the system may answer: memory that is not mapped yet. */
    ghost predicate Answers(nsize: nat, sys: Answer)
      reads this, heap
    {
      sys.Memory? && ChunkFor(nsize) < SystemSize(ChunkFor(nsize)) ==>
          Unmapped(heap.segs, sys.base, SystemSize(ChunkFor(nsize)))
    }

    /** lj_alloc_f, the one entry point: frees, allocates or resizes. */
    method Alloc(ptr: nat, nsize: nat, sys: Answer) returns (r: nat)
      requires Valid() && (ptr == 0 || ptr in blocks) && nsize < SIZE_T_LIMIT && Answers(nsize, sys)
      modifies this, heap, heap.bins
      ensures Valid()
      ensures nsize == 0 ==> r == 0 && blocks == old(blocks) - {ptr}
      ensures nsize != 0 && r == 0 ==> blocks == old(blocks)
      ensures nsize != 0 && r == 0 ==>
                || (ptr != 0 && nsize >= MAX_REQUEST)
                || (NoRoom(old(heap.Snap()), ChunkFor(nsize))
                    && (sys.Refused? || SystemSize(ChunkFor(nsize)) <= ChunkFor(nsize))
                    && (ptr != 0 ==> !InPlace(old(heap.Snap()), ptr - 16, Request2Size(nsize))))
      ensures nsize != 0 && ptr != 0 ==>
                (r == ptr <==> nsize < MAX_REQUEST && InPlace(old(heap.Snap()), ptr - 16, Request2Size(nsize)))
      ensures nsize != 0 && r != 0 && r != ptr ==> r >= 16 && Chosen(old(heap.Snap()), ChunkFor(nsize), r - 16)
      ensures nsize != 0 && r != 0 ==> r == ptr || r !in old(blocks)
      ensures nsize != 0 && r != 0 ==>
                var known := if ptr == 0 then map[] else Prefix(old(blocks)[ptr].known, nsize);
                blocks == (old(blocks) - {ptr})[r := Block(nsize, known)]
    {
      hide Ok, Agrees, Granted, Released, Moved, NoRoom, SystemSize, ChunkFor, InPlace, Chosen;
      ghost var s, d := heap.Snap(), heap.data;
      PtrFacts(s, d, blocks, ptr);
      if nsize == 0 {
        heap.Free(ptr);
        if ptr != 0 {
          AgreesReleased(s, d, heap.Snap(), heap.data, ptr - 16, blocks);
        } else {
          assert blocks - {ptr} == blocks;
        }
        blocks := blocks - {ptr};
        r := 0;
      } else if ptr == 0 {
        r := heap.Malloc(nsize, sys);
        if r != 0 {
          ChunkForIs(s, d, heap.Snap(), heap.data, r - 16, nsize);
          AgreesGranted(s, d, heap.Snap(), heap.data, r - 16, nsize, blocks);
          assert blocks - {ptr} == blocks;
          blocks := blocks[r := Block(nsize, map[])];
        }
      } else {
        r := heap.Realloc(ptr, nsize, sys);
        if r != 0 {
          AgreesMoved(s, d, heap.Snap(), heap.data, ptr - 16, r - 16, nsize, blocks);
          blocks := (blocks - {ptr})[r := Block(nsize, Prefix(blocks[ptr].known, nsize))];
        }
      }
    }

    /** The client writes a byte of a block. */
    method Write(mem: nat, k: nat, v: bv8, h: Head, f: nat)
      requires Valid() && mem in blocks && k < blocks[mem].size
      modifies this, heap
      ensures Valid() && blocks == old(blocks)[mem := Block(old(blocks)[mem].size, old(blocks)[mem].known[k := v])]
    {
      hide Ok, Agrees;
      ghost var s, d := heap.Snap(), heap.data;
      PtrFacts(s, d, blocks, mem);
      heap.WriteByte(mem, k, v, h, f);
      SameSizes(s, heap.Snap());
      AgreesWritten(s, d, heap.Snap(), mem, k, v, blocks);
      blocks := blocks[mem := Block(blocks[mem].size, blocks[mem].known[k := v])];
    }

    /** It reads back what it wrote last. */
    method Read(mem: nat, k: nat) returns (v: bv8)
      requires Valid() && mem in blocks && k in blocks[mem].known
      ensures v == blocks[mem].known[k]
    {
      assert BlockOk(heap.Snap(), heap.data, mem, blocks[mem]);
      v := heap.data[mem + k];
    }

    /** Any sequence of calls and writes that a client may make; others are skipped. */
    method Run(calls: seq<Call>)
      requires Valid()
      modifies this, heap, heap.bins
      ensures Valid()
    {
      hide Ok, Agrees, SystemSize;
      for i := 0 to |calls|
        invariant Valid()
      {
        match calls[i]
        case Alloc(ptr, nsize, sys) =>
          if (ptr == 0 || ptr in blocks) && nsize < SIZE_T_LIMIT {
            var known := sys.Memory? && ChunkFor(nsize) < SystemSize(ChunkFor(nsize))
                && !Unmapped(heap.segs, sys.base, SystemSize(ChunkFor(nsize)));
            var r := Alloc(ptr, nsize, if known then Refused else sys);
          }
        case Write(mem, k, v, h, f) =>
          if mem in blocks && k < blocks[mem].size {
            Write(mem, k, v, h, f);
          }
      }
    }
  }

  lemma PtrFacts(s: State, d: map<nat, bv8>, blocks: map<nat, Block>, m: nat)
    requires Agrees(s, d, blocks)
    ensures m in blocks ==>
              m >= 16 && m - 16 in s.live && m - 16 in s.t.head
                  && blocks[m].size + CHUNK_OVERHEAD <= s.t.head[m - 16].size
    ensures 0 !in blocks
  {
    if m in blocks {
      assert BlockOk(s, d, m, blocks[m]);
    }
  }

  /** Only requests that are not too big are granted. */
  lemma ChunkForIs(s: State, d: map<nat, bv8>, s2: State, d2: map<nat, bv8>, p: nat, nsize: nat)
    requires Ok(s2) && Granted(s, d, s2, d2, p, ChunkFor(nsize))
    ensures Granted(s, d, s2, d2, p, Request2Size(nsize))
  {
    hide Shape, FreeAgree, SegmentsApart, TopLast;
    HeldLimit(s2.segs, s2.t, p);
  }

  lemma SameSizes(s: State, s2: State)
    requires Ok(s) && Ok(s2) && s2.live == s.live
    requires forall a <- s.live :: a in s.t.head && a in s2.t.head && s2.t.head[a].size == s.t.head[a].size
    ensures forall a <- s.live :: Is(s.t, a) && Is(s2.t, a) && s2.t.head[a].size == s.t.head[a].size
  {
  }
}
