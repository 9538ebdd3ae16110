/** The pool the JSON reader allocates from: blocks are cut from the front chunk of a list, and the chunks of earlier
    documents are kept for later ones up to a limit. */
module PoolAllocator {
  import opened Codec
  import opened Wrappers

  /** A chunk of memory; the bytes before ofs have been given away. */
  datatype Chunk = Chunk(id: nat, size: nat, ofs: nat)

  /** A block that was handed out. */
  datatype Block = Block(chunk: nat, ofs: nat, len: nat)

  const MAX_GROW: nat := 0x80_0000

  /** Sizes are rounded up to multiples of four. */
  function Round(size: nat): (r: nat)
    ensures size <= r < size + 4 && r % 4 == 0
  {
    (size + 3) / 4 * 4
  }

  function Sum(chunks: seq<Chunk>): nat {
    if chunks == [] then 0 else chunks[0].size + Sum(chunks[1..])
  }

  /** The sum counts the bytes of every chunk. */
  lemma SumSizes(chunks: seq<Chunk>, c: Chunk)
    ensures Sum([]) == 0 && Sum([c] + chunks) == c.size + Sum(chunks)
  {
    assert ([c] + chunks)[1..] == chunks;
  }

  lemma {:induction false} SumConcat(a: seq<Chunk>, b: seq<Chunk>)
    ensures Sum(a + b) == Sum(a) + Sum(b)
  {
    if a == [] {
      assert a + b == b;
    } else {
      assert (a + b)[1..] == a[1..] + b;
      SumConcat(a[1..], b);
    }
  }

  predicate Disjoint(a: Block, b: Block) {
    a.len == 0 || b.len == 0 || a.chunk != b.chunk || a.ofs + a.len <= b.ofs || b.ofs + b.len <= a.ofs
  }

  type Memory = map<nat, bytes>

  /** Chunks with different numbers, each with its memory; what was given away is inside. */
  predicate ChunksOk(chunks: seq<Chunk>, memory: Memory) {
    && (forall i | 0 <= i < |chunks| ::
          chunks[i].ofs <= chunks[i].size && chunks[i].id in memory && |memory[chunks[i].id]| == chunks[i].size)
    && (forall i, j | 0 <= i < j < |chunks| :: chunks[i].id != chunks[j].id)
  }

  /** The block lies in the part of an active chunk that was given away. */
  predicate Inside(b: Block, active: seq<Chunk>) {
    b.len == 0 || exists i | 0 <= i < |active| :: active[i].id == b.chunk && b.ofs + b.len <= active[i].ofs
  }

  predicate LiveOk(live: seq<Block>, active: seq<Chunk>) {
    && (forall i | 0 <= i < |live| :: Inside(live[i], active))
    && (forall i, j | 0 <= i < j < |live| :: Disjoint(live[i], live[j]))
  }

  function Read(memory: Memory, b: Block): bytes {
    if b.chunk in memory && b.ofs + b.len <= |memory[b.chunk]| then memory[b.chunk][b.ofs..b.ofs + b.len] else []
  }

  function FirstBytes(memory: Memory, b: Block, n: nat): bytes {
    var x := Read(memory, b);
    if n <= |x| then x[..n] else x
  }

  /** The live blocks hold what they held before. */
  predicate SameContents(live: seq<Block>, before: Memory, after: Memory) {
    forall i | 0 <= i < |live| :: Read(after, live[i]) == Read(before, live[i])
  }

  // ---- Lists of chunks.

  /** The first free chunk becomes the front of the active ones. */
  lemma Relinked(active: seq<Chunk>, free: seq<Chunk>, memory: Memory)
    requires ChunksOk(active + free, memory) && free != []
    ensures ChunksOk(([free[0]] + active) + free[1..], memory)
  {
    var before, after := active + free, ([free[0]] + active) + free[1..];
    var n := |active|;
    forall i | 0 <= i < |after| ensures after[i] == before[if i == 0 then n else if i <= n then i - 1 else i] {
    }
  }

  lemma Extended(active: seq<Chunk>, free: seq<Chunk>, memory: Memory, c: Chunk, content: bytes)
    requires ChunksOk(active + free, memory) && c.id !in memory && c.ofs == 0 && |content| == c.size
    ensures ChunksOk(([c] + active) + free, memory[c.id := content])
  {
    var before, after := active + free, ([c] + active) + free;
    assert forall i | 0 < i < |after| :: after[i] == before[i - 1];
  }

  /** The front chunk gives away another part of itself, or takes it back. */
  lemma Moved(active: seq<Chunk>, free: seq<Chunk>, memory: Memory, ofs: nat)
    requires ChunksOk(active + free, memory) && active != [] && ofs <= active[0].size
    ensures ChunksOk(([active[0].(ofs := ofs)] + active[1..]) + free, memory)
  {
    var before, after := active + free, ([active[0].(ofs := ofs)] + active[1..]) + free;
    assert before[0] == active[0] && after == before[0 := active[0].(ofs := ofs)];
  }

  lemma OtherIds(active: seq<Chunk>, free: seq<Chunk>, memory: Memory, i: nat)
    requires ChunksOk(active + free, memory) && i < |active|
    ensures active[i].ofs <= active[i].size && active[i].id in memory && |memory[active[i].id]| == active[i].size
    ensures i > 0 ==> active[i].id != active[0].id
  {
    assert (active + free)[i] == active[i] && (active + free)[0] == active[0];
  }

  lemma StillInside(b: Block, c: Chunk, active: seq<Chunk>)
    requires Inside(b, active)
    ensures Inside(b, [c] + active)
  {
    if b.len > 0 {
      var i :| 0 <= i < |active| && active[i].id == b.chunk && b.ofs + b.len <= active[i].ofs;
      assert ([c] + active)[i + 1] == active[i];
    }
  }

  /** What lies inside stays inside while the front chunk does not take back its bytes. */
  lemma InsideMoved(b: Block, active: seq<Chunk>, ofs: nat)
    requires Inside(b, active) && active != []
    requires b.len > 0 && b.chunk == active[0].id ==> b.ofs + b.len <= ofs
    ensures Inside(b, [active[0].(ofs := ofs)] + active[1..])
  {
    if b.len > 0 {
      var i :| 0 <= i < |active| && active[i].id == b.chunk && b.ofs + b.len <= active[i].ofs;
      assert ([active[0].(ofs := ofs)] + active[1..])[i] == if i == 0 then active[0].(ofs := ofs) else active[i];
    }
  }

  /** A live block of the front chunk ends where the free part of the chunk begins, or before. */
  lemma BelowTop(b: Block, active: seq<Chunk>, free: seq<Chunk>, memory: Memory)
    requires ChunksOk(active + free, memory) && active != [] && Inside(b, active) && b.len > 0
    ensures b.chunk == active[0].id ==> b.ofs + b.len <= active[0].ofs
    ensures b.chunk in memory && b.ofs + b.len <= |memory[b.chunk]|
  {
    var i :| 0 <= i < |active| && active[i].id == b.chunk && b.ofs + b.len <= active[i].ofs;
    OtherIds(active, free, memory, i);
  }

  // ---- Live blocks.

  predicate NumberedBelow(memory: Memory, n: nat) {
    forall id | id in memory :: id < n
  }

  lemma LiveExtended(live: seq<Block>, active: seq<Chunk>, c: Chunk)
    requires LiveOk(live, active)
    ensures LiveOk(live, [c] + active)
  {
    hide Inside;
    forall i | 0 <= i < |live| ensures Inside(live[i], [c] + active) {
      StillInside(live[i], c, active);
    }
  }

  /** A block cut from the free part of the front chunk. */
  lemma LiveCut(live: seq<Block>, active: seq<Chunk>, free: seq<Chunk>, memory: Memory, size: nat)
    requires ChunksOk(active + free, memory) && LiveOk(live, active) && active != []
    ensures var b := Block(active[0].id, active[0].ofs, size);
            LiveOk(live + [b], [active[0].(ofs := active[0].ofs + size)] + active[1..])
  {
    hide Inside;
    var b, after := Block(active[0].id, active[0].ofs, size), [active[0].(ofs := active[0].ofs + size)] + active[1..];
    var all := live + [b];
    CutInside(b, after);
    forall i | 0 <= i < |live| ensures Inside(live[i], after) && Disjoint(live[i], b) {
      if live[i].len > 0 {
        BelowTop(live[i], active, free, memory);
      }
      InsideMoved(live[i], active, active[0].ofs + size);
    }
  }

  lemma CutInside(b: Block, active: seq<Chunk>)
    requires active != [] && b.chunk == active[0].id && b.ofs + b.len <= active[0].ofs
    ensures Inside(b, active)
  {}

  /** The block at the top of the front chunk changes its length. */
  lemma LiveResized(live: seq<Block>, k: nat, active: seq<Chunk>, free: seq<Chunk>, memory: Memory, len: nat)
    requires ChunksOk(active + free, memory) && LiveOk(live, active) && active != [] && k < |live|
    requires live[k].chunk == active[0].id && live[k].ofs + live[k].len == active[0].ofs
    ensures var b := live[k].(len := len);
            LiveOk(live[k := b], [active[0].(ofs := b.ofs + len)] + active[1..])
  {
    hide Inside;
    var b, after := live[k].(len := len), [active[0].(ofs := live[k].ofs + len)] + active[1..];
    CutInside(b, after);
    forall i | 0 <= i < |live| && i != k
      ensures Inside(live[i], after) && Disjoint(live[i], b) && Disjoint(b, live[i])
    {
      assert Disjoint(live[i], live[k]) || Disjoint(live[k], live[i]);
      if live[i].len > 0 {
        BelowTop(live[i], active, free, memory);
        ResizedApart(live[i], live[k], active[0].ofs);
      }
      InsideMoved(live[i], active, live[k].ofs + len);
    }
  }

  lemma ResizedApart(other: Block, top: Block, ofs: nat)
    requires other.len > 0 && other.chunk == top.chunk ==> other.ofs + other.len <= ofs
    requires top.ofs + top.len == ofs && Disjoint(other, top)
    ensures other.len > 0 && other.chunk == top.chunk ==> other.ofs + other.len <= top.ofs
  {}

  // ---- Contents.

  /** The memory with some bytes written into one chunk. */
  function Written(memory: Memory, b: Block, bs: bytes): Memory
    requires b.chunk in memory && |bs| <= b.len && b.ofs + b.len <= |memory[b.chunk]|
  {
    var m := memory[b.chunk];
    memory[b.chunk := m[..b.ofs] + bs + m[b.ofs + |bs|..]]
  }

  /** Writing into a block shows there and in no block that is disjoint from it. */
  lemma WrittenRead(memory: Memory, b: Block, bs: bytes, other: Block)
    requires b.chunk in memory && |bs| <= b.len && b.ofs + b.len <= |memory[b.chunk]|
    ensures FirstBytes(Written(memory, b, bs), b, |bs|) == bs
    ensures Disjoint(other, b) || Disjoint(b, other) ==> Read(Written(memory, b, bs), other) == Read(memory, other)
  {
    var m := memory[b.chunk];
    Overwritten(m, b.ofs, bs, b.ofs, b.len);
    if other.chunk == b.chunk && other.ofs + other.len <= |m| && (Disjoint(other, b) || Disjoint(b, other)) {
      OverwrittenBeside(m, b.ofs, bs, b.len, other.ofs, other.len);
    }
  }

  lemma Overwritten(m: bytes, ofs: nat, bs: bytes, o: nat, len: nat)
    requires o == ofs && |bs| <= len && ofs + len <= |m|
    ensures var n := m[..ofs] + bs + m[ofs + |bs|..];
            |n| == |m| && n[o..o + len][..|bs|] == bs
  {}

  lemma OverwrittenBeside(m: bytes, ofs: nat, bs: bytes, len: nat, o: nat, k: nat)
    requires |bs| <= len && ofs + len <= |m| && o + k <= |m|
    requires k == 0 || len == 0 || o + k <= ofs || ofs + len <= o
    ensures var n := m[..ofs] + bs + m[ofs + |bs|..];
            |n| == |m| && n[o..o + k] == m[o..o + k]
  {
    var n := m[..ofs] + bs + m[ofs + |bs|..];
    assert forall i | 0 <= i < |m| && !(ofs <= i < ofs + |bs|) :: n[i] == m[i];
  }

  lemma WrittenChunks(chunks: seq<Chunk>, memory: Memory, b: Block, bs: bytes)
    requires ChunksOk(chunks, memory)
    requires b.chunk in memory && |bs| <= b.len && b.ofs + b.len <= |memory[b.chunk]|
    ensures ChunksOk(chunks, Written(memory, b, bs))
  {}

  /** Where a new block goes: behind the last one when the front chunk has room, else to the start of the first free
      chunk when that is large enough, else to the start of new memory, of which there is twice as much each time, up to
      eight megabytes. */
  predicate Placed(active: seq<Chunk>, free: seq<Chunk>, nextId: nat, grow: nat, b: Block, active': seq<Chunk>,
                   free': seq<Chunk>, grow': nat) {
    if active != [] && active[0].size >= active[0].ofs + b.len then
      && b == Block(active[0].id, active[0].ofs, b.len)
      && active' == [active[0].(ofs := active[0].ofs + b.len)] + active[1..] && free' == free && grow' == grow
    else if free != [] && free[0].size >= b.len then
      && b == Block(free[0].id, 0, b.len)
      && active' == [Chunk(free[0].id, free[0].size, b.len)] + active && free' == free[1..] && grow' == grow
    else
      && b == Block(nextId, 0, b.len)
      && active' == [Chunk(nextId, if b.len < grow then grow else b.len, b.len)] + active && free' == free
      && grow' == if grow < 0x40_0000 then 2 * grow else 0x80_0000
  }

  class Pool {
    var active: seq<Chunk>
    var free: seq<Chunk>
    var totalFreeBytes: nat
    var minChunkSize: nat
    var maxToPreserve: nat
    var curGrowSize: nat
    var memory: Memory
    var nextId: nat
    ghost var live: seq<Block>

    ghost predicate Valid()
      reads this
    {
      && ChunksOk(active + free, memory) && NumberedBelow(memory, nextId)
      && (forall i | 0 <= i < |free| :: free[i].ofs == 0)
      && totalFreeBytes == Sum(free)
      && LiveOk(live, active)
    }

    /** The pool may start with one chunk; initial is what its memory happens to hold. */
    constructor (initial: bytes, minChunk: nat, maxPreserve: nat)
      ensures Valid() && live == [] && maxToPreserve == maxPreserve
    {
      active, memory := [], map[];
      if initial != [] {
        active, memory := [Chunk(0, |initial|, 0)], map[0 := initial];
      }
      free, totalFreeBytes := [], 0;
      minChunkSize, maxToPreserve, curGrowSize := minChunk, maxPreserve, minChunk;
      nextId, live := 1, [];
    }

    /** The first free chunk becomes the front, or new memory does; content is what new memory happens to hold. */
    method NewChunk(size: nat, content: bytes)
      requires Valid() && |content| >= size && |content| >= curGrowSize
      modifies this`active, this`free, this`totalFreeBytes, this`curGrowSize, this`memory, this`nextId
      ensures Valid() && active != [] && active[0].ofs == 0 && active[0].size >= size
      ensures forall id | id in old(memory) :: id in memory && memory[id] == old(memory)[id]
      ensures if old(free) != [] && old(free)[0].size >= size then
                && active == [old(free)[0]] + old(active) && free == old(free)[1..]
                && memory == old(memory) && curGrowSize == old(curGrowSize)
              else
                && active ==
                   [Chunk(old(nextId), if size < old(curGrowSize) then old(curGrowSize) else size, 0)] + old(active)
                && free == old(free)
                && curGrowSize == if old(curGrowSize) < 0x40_0000 then 2 * old(curGrowSize) else 0x80_0000
    {
      hide LiveOk;
      if free != [] && free[0].size >= size {
        var chunk := free[0];
        assert (active + free)[|active|] == chunk;
        Relinked(active, free, memory);
        LiveExtended(live, active, chunk);
        totalFreeBytes := totalFreeBytes - chunk.size;
        active, free := [chunk] + active, free[1..];
      } else {
        var allocSize := if size < curGrowSize then curGrowSize else size;
        curGrowSize := if curGrowSize * 2 < MAX_GROW then curGrowSize * 2 else MAX_GROW;
        var chunk := Chunk(nextId, allocSize, 0);
        Extended(active, free, memory, chunk, content[..allocSize]);
        LiveExtended(live, active, chunk);
        memory := memory[nextId := content[..allocSize]];
        nextId := nextId + 1;
        active := [chunk] + active;
      }
    }

    /** A block at the front of the pool. */
    method Alloc(bytesNeeded: nat, content: bytes) returns (b: Block)
      requires Valid() && |content| >= Round(bytesNeeded) && |content| >= curGrowSize
      modifies this`active, this`free, this`totalFreeBytes, this`curGrowSize, this`memory, this`nextId, this`live
      ensures Valid() && live == old(live) + [b] && b.len == (bytesNeeded + 3) / 4 * 4
      ensures Placed(old(active), old(free), old(nextId), old(curGrowSize), b, active, free, curGrowSize)
      ensures b.chunk in memory && b.ofs + b.len <= |memory[b.chunk]|
      ensures forall id | id in old(memory) :: id in memory && memory[id] == old(memory)[id]
    {
      hide LiveOk;
      var size := Round(bytesNeeded);
      if active == [] || active[0].size - active[0].ofs < size {
        NewChunk(size, content);
      }
      var front := active[0];
      OtherIds(active, free, memory, 0);
      Moved(active, free, memory, front.ofs + size);
      LiveCut(live, active, free, memory, size);
      b := Block(front.id, front.ofs, size);
      active := [front.(ofs := front.ofs + size)] + active[1..];
      live := live + [b];
    }

    /** Blocks that were inside their chunks hold what they held. */
    lemma Unchanged(before: Memory, blocks: seq<Block>, chunks: seq<Chunk>, spare: seq<Chunk>)
      requires ChunksOk(chunks + spare, before) && LiveOk(blocks, chunks)
      requires forall id | id in before :: id in memory && memory[id] == before[id]
      ensures SameContents(blocks, before, memory)
    {
      forall i | 0 <= i < |blocks| ensures Read(memory, blocks[i]) == Read(before, blocks[i]) {
        assert Inside(blocks[i], chunks);
        if blocks[i].len > 0 {
          BelowTop(blocks[i], chunks, spare, before);
        }
      }
    }

    /** The block at the top of the front chunk is resized in place when the chunk has room. */
    method ResizeTop(p: Block, ghost k: nat, newSize: nat) returns (ok: bool)
      requires Valid() && k < |live| && live[k] == p && active != []
      requires active[0].id == p.chunk && active[0].ofs == p.ofs + p.len
      modifies this`active, this`live
      ensures Valid() && (ok <==> old(active)[0].size >= p.ofs + newSize)
      ensures live == if ok then old(live)[k := p.(len := newSize)] else old(live)
      ensures newSize <= p.len ==> ok
      ensures ok ==> active == [old(active)[0].(ofs := p.ofs + newSize)] + old(active)[1..]
      ensures ok ==> var n := if newSize < p.len then newSize else p.len;
                     FirstBytes(memory, p.(len := newSize), n) == FirstBytes(memory, p, n)
    {
      hide LiveOk;
      var front := active[0];
      OtherIds(active, free, memory, 0);
      ok := front.size >= p.ofs + newSize;
      if ok {
        Moved(active, free, memory, p.ofs + newSize);
        LiveResized(live, k, active, free, memory, newSize);
        active := [front.(ofs := p.ofs + newSize)] + active[1..];
        live := live[k := p.(len := newSize)];
        ResizedRead(memory, p, newSize);
      }
    }

    /** Resizes a block. Only the block at the top of the front chunk may shrink, unless to nothing: for any other
        the code copies the old size into the new block. */
    method Realloc(p: Option<Block>, ghost k: nat, newBytes: nat, curBytes: nat, content: bytes)
      returns (r: Option<Block>)
      requires Valid() && |content| >= Round(newBytes) && |content| >= curGrowSize
      requires p.Some? ==> k < |live| && live[k] == p.value && p.value.len == Round(curBytes) && active != []
      requires p.Some? && 0 < Round(newBytes) < Round(curBytes) ==> AtTop(p.value)
      modifies this`active, this`free, this`totalFreeBytes, this`curGrowSize, this`memory, this`nextId, this`live
      ensures Valid()
      ensures p.None? ==> r.Some? && r.value.len == Round(newBytes) && live == old(live) + [r.value]
      ensures p.Some? ==> (r.None? <==> Round(newBytes) == 0 && Round(curBytes) > 0)
      ensures p.Some? && r.None? ==> live == Without(old(live), k)
      ensures p.Some? && r.Some? ==>
                && r.value.len == Round(newBytes)
                && (live == old(live)[k := r.value] || live == Without(old(live), k) + [r.value])
                && var n := if newBytes < curBytes then Round(newBytes) else Round(curBytes);
                   FirstBytes(memory, r.value, n) == FirstBytes(old(memory), p.value, n)
      ensures SameContents(if p.Some? then Without(old(live), k) else old(live), old(memory), memory)
      ensures p.Some? && Round(newBytes) == Round(curBytes) ==> r == p && active == old(active) && memory == old(memory)
      ensures p.Some? && old(AtTop(p.value)) && p.value.ofs + Round(newBytes) <= old(active)[0].size
              && Round(newBytes) != Round(curBytes) ==>
                && r == (if Round(newBytes) == 0 then None else Some(p.value.(len := Round(newBytes))))
                && active == [old(active)[0].(ofs := p.value.ofs + Round(newBytes))] + old(active)[1..]
                && free == old(free) && memory == old(memory)
    {
      hide LiveOk, ChunksOk, FirstBytes, Read, Without, Sum, NumberedBelow, Placed;
      if p.None? {
        var b := Alloc(newBytes, content);
        Unchanged(old(memory), old(live), old(active), old(free));
        return Some(b);
      }
      var block, newSize, curSize := p.value, Round(newBytes), Round(curBytes);
      SameMemory(Without(live, k), memory);
      if newSize == curSize {
        assert live[k := block] == live;
        return p;
      }
      if active[0].id == block.chunk && active[0].ofs == block.ofs + curSize {
        var ok := ResizeTop(block, k, newSize);
        if ok {
          if newSize == 0 {
            WithoutUpdated(old(live), k, block.(len := 0));
            Drop(k);
            return None;
          }
          return Some(block.(len := newSize));
        }
      }
      if newSize == 0 {
        Drop(k);
        return None;
      }
      r := CopyToNew(block, k, newBytes, curSize, content);
    }

    ghost predicate AtTop(b: Block)
      reads this
    {
      active != [] && active[0].id == b.chunk && active[0].ofs == b.ofs + b.len
    }

    /** A block ends its life. */
    ghost method Drop(k: nat)
      requires Valid() && k < |live|
      modifies this`live
      ensures Valid() && live == Without(old(live), k)
    {
      LiveDropped(live, k, active);
      live := Without(live, k);
    }

    /** The block moves: its old bytes are copied to a new block, which is at least as long. */
    method CopyToNew(block: Block, ghost k: nat, newBytes: nat, curSize: nat, content: bytes) returns (r: Option<Block>)
      requires Valid() && |content| >= Round(newBytes) && |content| >= curGrowSize
      requires k < |live| && live[k] == block && block.len == curSize <= Round(newBytes)
      modifies this`active, this`free, this`totalFreeBytes, this`curGrowSize, this`memory, this`nextId, this`live
      ensures Valid() && r.Some? && r.value.len == Round(newBytes)
      ensures live == Without(old(live), k) + [r.value]
      ensures FirstBytes(memory, r.value, curSize) == FirstBytes(old(memory), block, curSize)
      ensures SameContents(Without(old(live), k), old(memory), memory)
    {
      hide LiveOk, Written, Read;
      ghost var before := memory;
      var b := Alloc(newBytes, content);
      Unchanged(before, old(live), old(active), old(free));
      ReadLength(before, old(live), k, old(active), old(free));
      var bytesOfBlock := Read(memory, block);
      ghost var between := memory;
      WrittenChunks(active + free, memory, b, bytesOfBlock);
      WrittenNumbers(memory, b, bytesOfBlock, nextId);
      memory := Written(memory, b, bytesOfBlock);
      WrittenRead(between, b, bytesOfBlock, b);
      OthersKept(between, b, bytesOfBlock, old(live), active);
      DroppedContents(old(live), k, before, between);
      DroppedContents(old(live), k, between, memory);
      LiveDropped(live, k, active);
      live := Without(live, k);
      assert live == Without(old(live), k) + [b];
      r := Some(b);
    }

    /** Marks all active chunks as empty and puts them in front of the free ones. */
    method Recycle()
      requires Valid()
      modifies this`active, this`free, this`totalFreeBytes, this`live
      ensures Valid() && live == [] && active == [] && free == Emptied(old(active)) + old(free)
    {
      hide ChunksOk;
      var emptied, total := EmptyAll(active);
      EmptiedOk(active, free, memory);
      SumConcat(emptied, free);
      free := emptied + free;
      active, live := [], [];
      totalFreeBytes := totalFreeBytes + total;
    }

    /** Releases free chunks from the front, no more than are needed, until the preserve limit is met. */
    method Trim()
      requires Valid() && live == [] && active == []
      modifies this`free, this`totalFreeBytes, this`memory
      ensures Valid() && totalFreeBytes <= maxToPreserve
      ensures exists n :: 0 <= n <= |old(free)| && free == old(free)[n..]
                          && (n > 0 ==> Sum(old(free)[n - 1..]) > maxToPreserve)
    {
      hide ChunksOk;
      ghost var n := 0;
      while totalFreeBytes > maxToPreserve
        invariant Valid() && live == [] && active == []
        invariant 0 <= n <= |old(free)| && free == old(free)[n..]
        invariant n > 0 ==> Sum(old(free)[n - 1..]) > maxToPreserve
        decreases |free|
      {
        assert [] + free == free && [] + free[1..] == free[1..];
        Released(free, memory, nextId);
        totalFreeBytes := totalFreeBytes - free[0].size;
        memory := Minus(memory, free[0].id);
        free := free[1..];
        n := n + 1;
      }
    }

    /** Ends the life of all blocks. The active chunks become free ones, and free chunks are released until the
        preserve limit is met. */
    method Reset()
      requires Valid()
      modifies this`active, this`free, this`totalFreeBytes, this`curGrowSize, this`memory, this`live
      ensures Valid() && live == [] && active == []
      ensures old(active) != [] ==> totalFreeBytes <= maxToPreserve
      ensures exists n :: 0 <= n <= |old(active) + old(free)| && free == (Emptied(old(active)) + old(free))[n..]
                          && (n > 0 ==> Sum((Emptied(old(active)) + old(free))[n - 1..]) > maxToPreserve)
      ensures old(active) != [] ==> curGrowSize == minChunkSize
      ensures old(active) == [] ==> free == old(free) && totalFreeBytes == old(totalFreeBytes)
    {
      if active == [] {
        live := [];
        assert (Emptied(active) + free)[0..] == free;
        return;
      }
      Recycle();
      Trim();
      curGrowSize := minChunkSize;
    }
  }

  /** Marks chunks as empty and adds up their sizes. */
  method EmptyAll(chunks: seq<Chunk>) returns (emptied: seq<Chunk>, total: nat)
    ensures emptied == Emptied(chunks) && total == Sum(chunks)
  {
    total, emptied := 0, [];
    for i := 0 to |chunks|
      invariant emptied == Emptied(chunks[..i]) && total == Sum(chunks[..i])
    {
      assert chunks[..i + 1] == chunks[..i] + [chunks[i]];
      SumConcat(chunks[..i], [chunks[i]]);
      emptied := emptied + [chunks[i].(ofs := 0)];
      total := total + chunks[i].size;
    }
    assert chunks[..|chunks|] == chunks;
  }

  function Without(live: seq<Block>, k: nat): seq<Block>
    requires k < |live|
  {
    live[..k] + live[k + 1..]
  }

  lemma WithoutUpdated(live: seq<Block>, k: nat, b: Block)
    requires k < |live|
    ensures Without(live[k := b], k) == Without(live, k)
  {}

  lemma SameMemory(live: seq<Block>, memory: Memory)
    ensures SameContents(live, memory, memory)
  {}

  lemma LiveDropped(live: seq<Block>, k: nat, active: seq<Chunk>)
    requires LiveOk(live, active) && k < |live|
    ensures LiveOk(Without(live, k), active)
  {
    var w := Without(live, k);
    assert forall i | 0 <= i < |w| :: w[i] == if i < k then live[i] else live[i + 1];
  }

  lemma DroppedContents(live: seq<Block>, k: nat, before: Memory, after: Memory)
    requires k < |live| && forall i | 0 <= i < |live| && i != k :: Read(after, live[i]) == Read(before, live[i])
    ensures SameContents(Without(live, k), before, after)
  {
    var w := Without(live, k);
    assert forall i | 0 <= i < |w| :: w[i] == if i < k then live[i] else live[i + 1];
  }

  lemma ResizedRead(memory: Memory, b: Block, len: nat)
    requires b.chunk in memory && b.ofs + b.len <= |memory[b.chunk]| && b.ofs + len <= |memory[b.chunk]|
    ensures var n := if len < b.len then len else b.len;
            FirstBytes(memory, b.(len := len), n) == FirstBytes(memory, b, n)
  {}

  lemma ReadLength(memory: Memory, live: seq<Block>, k: nat, active: seq<Chunk>, free: seq<Chunk>)
    requires ChunksOk(active + free, memory) && LiveOk(live, active) && k < |live|
    ensures |Read(memory, live[k])| == live[k].len
  {
    if live[k].len > 0 {
      assert Inside(live[k], active);
      if active == [] {
        assert false;
      }
      BelowTop(live[k], active, free, memory);
    }
  }

  lemma WrittenNumbers(memory: Memory, b: Block, bs: bytes, n: nat)
    requires NumberedBelow(memory, n)
    requires b.chunk in memory && |bs| <= b.len && b.ofs + b.len <= |memory[b.chunk]|
    ensures NumberedBelow(Written(memory, b, bs), n)
  {}

  lemma OthersKept(memory: Memory, b: Block, bs: bytes, live: seq<Block>, active: seq<Chunk>)
    requires LiveOk(live + [b], active)
    requires b.chunk in memory && |bs| <= b.len && b.ofs + b.len <= |memory[b.chunk]|
    ensures SameContents(live, memory, Written(memory, b, bs))
  {
    forall i | 0 <= i < |live| ensures Read(Written(memory, b, bs), live[i]) == Read(memory, live[i]) {
      assert (live + [b])[i] == live[i] && (live + [b])[|live|] == b;
      WrittenRead(memory, b, bs, live[i]);
    }
  }

  function Emptied(chunks: seq<Chunk>): (e: seq<Chunk>)
    ensures |e| == |chunks|
  {
    seq(|chunks|, i requires 0 <= i < |chunks| => chunks[i].(ofs := 0))
  }

  lemma EmptiedOk(active: seq<Chunk>, free: seq<Chunk>, memory: Memory)
    requires ChunksOk(active + free, memory)
    ensures ChunksOk([] + (Emptied(active) + free), memory) && Sum(Emptied(active)) == Sum(active)
  {
    var before, after := active + free, [] + (Emptied(active) + free);
    assert forall i | 0 <= i < |after| :: after[i] == if i < |active| then before[i].(ofs := 0) else before[i];
    EmptiedSum(active);
  }

  lemma {:induction false} EmptiedSum(chunks: seq<Chunk>)
    ensures Sum(Emptied(chunks)) == Sum(chunks)
  {
    if chunks != [] {
      assert Emptied(chunks)[1..] == Emptied(chunks[1..]);
      EmptiedSum(chunks[1..]);
    }
  }

  lemma Released(free: seq<Chunk>, memory: Memory, n: nat)
    requires ChunksOk(free, memory) && NumberedBelow(memory, n) && free != []
    ensures ChunksOk(free[1..], Minus(memory, free[0].id)) && NumberedBelow(Minus(memory, free[0].id), n)
  {
    assert forall i | 0 <= i < |free[1..]| :: free[1..][i] == free[i + 1];
  }
}
