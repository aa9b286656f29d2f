/**
 `SimpleStreamHelper` as it runs: it collects the body of a stream in blocks of a fixed size, which always hold
 exactly what has arrived, joins them, and hands the body to its callback.
 */
module StreamHelpers {
  import opened Common
  import opened HttpHeaders
  import opened StreamBody
  import opened E = StreamEvents

  /** The number of blocks that `received` bytes need. */
  function Blocks(received: nat, blockSize: nat): nat
    requires blockSize > 0
  {
    (received + blockSize - 1) / blockSize
  }

  lemma BlocksBounds(received: nat, blockSize: nat)
    requires blockSize > 0
    ensures var n := Blocks(received, blockSize);
            && n * blockSize >= received
            && (received > 0 ==> n > 0 && (n - 1) * blockSize < received)
            && (received == 0 ==> n == 0)
  {
    var n := Blocks(received, blockSize);
    assert n * blockSize <= received + blockSize - 1 < n * blockSize + blockSize;
    assert n == 0 ==> n * blockSize == 0;
    assert (n - 1) * blockSize == n * blockSize - blockSize;
  }

  /** `n` is the number of blocks for `received` bytes as soon as the last of the `n` blocks is the one in use. */
  lemma BlocksUnique(received: nat, blockSize: nat, n: nat)
    requires blockSize > 0 && n * blockSize >= received && (n > 0 ==> (n - 1) * blockSize < received)
    ensures n == Blocks(received, blockSize)
  {
    BlocksBounds(received, blockSize);
    var m := Blocks(received, blockSize);
    if n < m { MulMonotone(n, m - 1, blockSize); }
    if m < n { MulMonotone(m, n - 1, blockSize); }
  }

  lemma MulMonotone(a: nat, b: nat, k: nat)
    requires a <= b
    ensures a * k <= b * k
  {
  }

  /** The place in the body of byte `k` of block `i`. */
  function Index(i: nat, k: nat, blockSize: nat): nat {
    i * blockSize + k
  }

  lemma IndexOrder(i: nat, k: nat, n: nat, pos: nat, blockSize: nat)
    requires k < blockSize && i <= n
    ensures i < n ==> Index(i, k, blockSize) < Index(n, pos, blockSize)
  {
    if i < n {
      MulMonotone(i + 1, n, blockSize);
      assert (i + 1) * blockSize == i * blockSize + blockSize;
    }
  }

  lemma IndexAdds(n: nat, pos: nat, k: nat, blockSize: nat)
    ensures Index(n, k, blockSize) - Index(n, pos, blockSize) == k - pos
  {
  }

  // ---- Data at any position ----

  /** How much of `len` bytes at `offset` goes into one block. */
  function ChunkLength(offset: nat, len: nat, blockSize: nat): (n: nat)
    requires blockSize > 0
    ensures n <= len && (len > 0 ==> n > 0)
  {
    if offset % blockSize + len >= blockSize then blockSize - offset % blockSize else len
  }

  /** One block more, if there are not enough of them for byte `offset`. */
  function Grown(blocks: nat, offset: nat, blockSize: nat): nat
    requires blockSize > 0
  {
    if blocks < offset / blockSize + 1 then blocks + 1 else blocks
  }

  /** How many blocks there are after `len` bytes at `offset`: each chunk adds one at most. */
  function BlocksAfter(blocks: nat, offset: nat, len: nat, blockSize: nat): nat
    requires blockSize > 0
    decreases len
  {
    if len == 0 then blocks
    else
      var n := ChunkLength(offset, len, blockSize);
      BlocksAfter(Grown(blocks, offset, blockSize), offset + n, len - n, blockSize)
  }

  /**
   How much of the block for `offset` is copied when the blocks are joined. The lengths are unsigned: beyond the
   received length their difference wraps around to more than any block holds.
   */
  function CopyLength(received: nat, offset: nat, blockSize: nat): nat {
    if offset <= received && received - offset <= blockSize then received - offset else blockSize
  }

  ghost predicate Copied(received: nat, i: nat, k: nat, blockSize: nat) {
    k < CopyLength(received, i * blockSize, blockSize)
  }

  /** The last block does not begin beyond the received length. */
  predicate Joinable(received: nat, blocks: nat, blockSize: nat) {
    blocks == 0 || (blocks - 1) * blockSize <= received
  }

  /** Every byte that is copied goes into the buffer for the received bytes if and only if the blocks are joinable. */
  lemma JoinInBoundsIff(received: nat, blocks: nat, blockSize: nat)
    requires blockSize > 0
    ensures (forall i: nat, k: nat :: i < blocks && Copied(received, i, k, blockSize) ==>
               Index(i, k, blockSize) < received)
            <==> Joinable(received, blocks, blockSize)
  {
    if Joinable(received, blocks, blockSize) {
      forall i: nat, k: nat | i < blocks && Copied(received, i, k, blockSize)
        ensures Index(i, k, blockSize) < received
      {
        MulMonotone(i, blocks - 1, blockSize);
      }
    } else {
      assert Copied(received, blocks - 1, 0, blockSize) && Index(blocks - 1, 0, blockSize) > received;
    }
  }

  /**
   After a piece at 0 and one of the same length at the second block, the two blocks are joinable if and only if the
   pieces fill half of them: two single bytes in blocks of four make the code write beyond the buffer.
   */
  lemma GapOverrunsBuffer(len: nat, blockSize: nat)
    requires 0 < len < blockSize
    ensures var blocks := BlocksAfter(BlocksAfter(0, 0, len, blockSize), blockSize, len, blockSize);
            blocks == 2 && (Joinable(len + len, blocks, blockSize) <==> blockSize <= len + len)
  {
    assert blockSize / blockSize == 1 && blockSize % blockSize == 0 && 0 / blockSize == 0;
    ShortPiece(0, 0, len, blockSize);
    ShortPiece(1, blockSize, len, blockSize);
  }

  /** A piece that fits into one block adds one block at most. */
  lemma ShortPiece(blocks: nat, offset: nat, len: nat, blockSize: nat)
    requires blockSize > 0 && 0 < len && offset % blockSize + len < blockSize
    ensures BlocksAfter(blocks, offset, len, blockSize) == Grown(blocks, offset, blockSize)
  {
    assert ChunkLength(offset, len, blockSize) == len;
    var grown := Grown(blocks, offset, blockSize);
    assert BlocksAfter(grown, offset + len, 0, blockSize) == grown;
  }

  class SimpleStreamHelper {
    const blockSize: nat
    var blocks: seq<array<Byte>>
    var received: nat
    var data: array?<Byte>
    var callback: bool
    var self: bool
    /** The header text of the observed stream, the bytes received so far, and the calls made to the callback. */
    ghost const source: string
    ghost var bytes: seq<Byte>
    /** Every piece of data so far continued the one before it. */
    ghost var gapless: bool
    ghost var calls: seq<HttpResult>

    ghost function State(): Helper
      reads this
    {
      Helper(source, bytes, callback, self, calls)
    }

    /** The blocks are separate arrays of the block size. */
    ghost predicate Separate()
      reads this`blocks, blocks
    {
      && (forall i :: 0 <= i < |blocks| ==> blocks[i].Length == blockSize)
      && (forall i, j :: 0 <= i < j < |blocks| ==> blocks[i] != blocks[j])
    }

    /** The first `stored` bytes of `all` are in the blocks, in order. */
    ghost predicate Holds(all: seq<Byte>, stored: nat)
      requires stored <= |all| && Separate()
      reads this`blocks, blocks
    {
      forall i, k :: 0 <= i < |blocks| && 0 <= k < blockSize && Index(i, k, blockSize) < stored ==>
        blocks[i][k] == all[Index(i, k, blockSize)]
    }

    ghost predicate Stored(all: seq<Byte>, stored: nat)
      reads this`blocks, blocks
    {
      blockSize > 0 && stored <= |all| && |blocks| == Blocks(stored, blockSize) && Separate() && Holds(all, stored)
    }

    ghost predicate Valid()
      reads this, blocks
    {
      && blockSize > 0 && received == |bytes| && Separate()
      && (data == null && gapless ==> Stored(bytes, received))
      && (data != null ==> !callback)
    }

    constructor (blockSize: nat, ghost source: string)
      requires blockSize > 0
      ensures Valid() && State() == NewHelper(source) && this.source == source && this.blockSize == blockSize
      ensures gapless && blocks == [] && data == null
    {
      this.blockSize := blockSize;
      this.source := source;
      blocks, received, data, callback, self := [], 0, null, true, true;
      bytes, calls, gapless := [], [], true;
      new;
      BlocksBounds(0, blockSize);
    }

    /** The next bytes of `all` are `buf`, and all before them are in the blocks. */
    ghost predicate Continues(all: seq<Byte>, offset: nat, buf: seq<Byte>)
      requires Separate()
      reads this`blocks, blocks
    {
      offset + |buf| <= |all| && buf == all[offset..offset + |buf|] && Holds(all, offset)
    }

    /** Fills the last block from `pos` on with as much of `buf` as there is room for. */
    method Fill(buf: seq<Byte>, ghost n: nat, pos: nat, ghost all: seq<Byte>, ghost offset: nat, ghost gapless: bool)
        returns (curLen: nat)
      requires blockSize > 0 && blocks != [] && pos < blockSize && buf != [] && Separate()
      requires gapless ==> |blocks| == n + 1 && offset == Index(n, pos, blockSize) && Continues(all, offset, buf)
      modifies blocks[|blocks| - 1]
      ensures curLen == if pos + |buf| >= blockSize then blockSize - pos else |buf|
      ensures Separate()
      ensures gapless ==> offset + curLen <= |all| && Holds(all, offset + curLen)
    {
      var dest := blocks[|blocks| - 1];
      curLen := |buf|;
      if pos + |buf| >= blockSize { curLen := blockSize - pos; }
      forall k | 0 <= k < curLen { dest[pos + k] := buf[k]; }
      assert forall k :: pos <= k < pos + curLen ==> dest[k] == buf[k - pos];
      if gapless {
        forall i, k | 0 <= i < |blocks| && 0 <= k < blockSize && Index(i, k, blockSize) < offset + curLen
          ensures blocks[i][k] == all[Index(i, k, blockSize)]
        {
          IndexOrder(i, k, n, pos, blockSize);
          IndexAdds(n, pos, k, blockSize);
        }
      }
    }

    /** The block and the place in it where byte `offset` goes. */
    method Locate(offset: nat) returns (n: nat, pos: nat)
      requires blockSize > 0
      ensures n == offset / blockSize && pos == offset % blockSize && Index(n, pos, blockSize) == offset
      ensures Blocks(offset, blockSize) == (if pos == 0 then n else n + 1)
    {
      n := offset / blockSize;
      pos := offset % blockSize;
      LastBlock(offset, n, pos);
    }

    /** Adds one block if there are not enough of them. */
    method MakeRoom(n: nat, ghost pos: nat, ghost all: seq<Byte>, ghost offset: nat, ghost gapless: bool)
      requires blockSize > 0 && pos < blockSize && Index(n, pos, blockSize) == offset && Separate()
      requires gapless ==> offset <= |all| && Holds(all, offset) && |blocks| == (if pos == 0 then n else n + 1)
      modifies this`blocks
      ensures blocks != [] && Separate() && (gapless ==> |blocks| == n + 1 && offset <= |all| && Holds(all, offset))
      ensures |blocks| == if |old(blocks)| < n + 1 then |old(blocks)| + 1 else |old(blocks)|
      ensures blocks[..|blocks| - 1] == old(blocks)[..|blocks| - 1]
      ensures blocks[|blocks| - 1] in old(blocks) || fresh(blocks[|blocks| - 1])
    {
      if |blocks| < n + 1 {
        var block := new Byte[blockSize];
        blocks := blocks + [block];
        if gapless {
          forall i, k | 0 <= i < |blocks| && 0 <= k < blockSize && Index(i, k, blockSize) < offset
            ensures blocks[i][k] == all[Index(i, k, blockSize)]
          {
            IndexOrder(i, k, n, 0, blockSize);
          }
        }
      }
    }

    /** Copies into the last block what there is room for, after adding a block if there are not enough. */
    method CopyChunk(buf: seq<Byte>, offset: nat, ghost all: seq<Byte>, ghost gapless: bool) returns (curLen: nat)
      requires blockSize > 0 && buf != [] && Separate()
      requires gapless ==> Stored(all, offset) && Continues(all, offset, buf)
      modifies this`blocks, blocks
      ensures curLen == ChunkLength(offset, |buf|, blockSize) && Separate()
      ensures gapless ==> Stored(all, offset + curLen)
      ensures |blocks| == Grown(|old(blocks)|, offset, blockSize)
      ensures forall i :: 0 <= i < |blocks| ==> blocks[i] in old(blocks) || fresh(blocks[i])
    {
      var n, pos := Locate(offset);
      MakeRoom(n, pos, all, offset, gapless);
      ghost var last := |blocks| - 1;
      curLen := Fill(buf, n, pos, all, offset, gapless);
      FilledBlocks(n, pos, curLen);
      assert forall i :: 0 <= i < last ==> blocks[i] == blocks[..last][i];
    }

    lemma FilledBlocks(n: nat, pos: nat, curLen: nat)
      requires blockSize > 0 && 0 < curLen && pos + curLen <= blockSize
      ensures Blocks(Index(n, pos, blockSize) + curLen, blockSize) == n + 1
    {
      assert (n + 1) * blockSize == n * blockSize + blockSize;
      BlocksUnique(Index(n, pos, blockSize) + curLen, blockSize, n + 1);
    }

    lemma LastBlock(offset: nat, n: nat, pos: nat)
      requires blockSize > 0 && n == offset / blockSize && pos == offset % blockSize
      ensures Index(n, pos, blockSize) == offset && Blocks(offset, blockSize) == (if pos == 0 then n else n + 1)
    {
      assert n * blockSize + pos == offset;
      if pos == 0 {
        if n > 0 { assert (n - 1) * blockSize == n * blockSize - blockSize; }
        BlocksUnique(offset, blockSize, n);
      } else {
        assert (n + 1) * blockSize == n * blockSize + blockSize;
        BlocksUnique(offset, blockSize, n + 1);
      }
    }

    /** The copying loop: chunk after chunk goes into the last block there is then. */
    method StoreChunks(arrived: seq<Byte>, position: nat, ghost all: seq<Byte>, ghost stored: nat, ghost gapless: bool)
      requires blockSize > 0 && Separate() && (gapless ==> Stored(all, stored))
      requires gapless && arrived != [] ==> position == stored && Continues(all, position, arrived)
      modifies this`blocks, blocks
      ensures Separate() && (gapless ==> Stored(all, stored + |arrived|))
      ensures |blocks| == BlocksAfter(|old(blocks)|, position, |arrived|, blockSize)
      ensures forall i :: 0 <= i < |blocks| ==> blocks[i] in old(blocks) || fresh(blocks[i])
    {
      var done := 0;
      var offset := position;
      while done < |arrived|
        invariant 0 <= done <= |arrived| && offset == position + done && Separate()
        invariant gapless ==> Stored(all, stored + done)
        invariant forall i :: 0 <= i < |blocks| ==> blocks[i] in old(blocks) || fresh(blocks[i])
        invariant BlocksAfter(|blocks|, offset, |arrived| - done, blockSize)
                  == BlocksAfter(|old(blocks)|, position, |arrived|, blockSize)
      {
        assert gapless ==> arrived[done..] == all[offset..offset + |arrived[done..]|];
        var curLen := CopyChunk(arrived[done..], offset, all, gapless);
        done := done + curLen;
        offset := offset + curLen;
      }
    }

    /**
     Data at any position. Only data that continues the body keeps it whole; the number of blocks is determined by the
     positions and the lengths alone.
     */
    method OnStreamDataArrived(arrived: seq<Byte>, position: nat)
      requires Valid()
      modifies this, blocks
      ensures Valid() && data == old(data) && State() == OnData(old(State()), arrived)
      ensures gapless == (old(gapless) && (arrived == [] || (position == old(received) && data == null)))
      ensures received == old(received) + |arrived|
      ensures gapless && data == null ==> |blocks| == Blocks(received, blockSize)
      ensures |blocks| == BlocksAfter(|old(blocks)|, position, |arrived|, blockSize)
      ensures forall i :: 0 <= i < |blocks| ==> blocks[i] in old(blocks) || fresh(blocks[i])
    {
      gapless := gapless && (arrived == [] || (position == received && data == null));
      ghost var whole := gapless && data == null;
      ghost var was, start := bytes, received;
      received := received + |arrived|;
      bytes := bytes + arrived;
      assert whole ==> Stored(was, start);
      if whole { StoredMore(was, start, arrived); }
      StoreChunks(arrived, position, bytes, start, whole);
    }

    lemma StoredMore(all: seq<Byte>, stored: nat, more: seq<Byte>)
      requires Stored(all, stored)
      ensures Stored(all + more, stored)
    {
    }

    /** Copies block `i`, as far as it is filled, to its place in the joined buffer. */
    method CopyBlock(i: nat, joined: array<Byte>)
      requires Valid() && data == null && i < |blocks| && Joinable(received, |blocks|, blockSize)
      requires joined.Length == received && joined !in blocks
      requires gapless ==> forall k :: 0 <= k < i * blockSize && k < received ==> joined[k] == bytes[k]
      modifies joined
      ensures gapless ==> forall k :: 0 <= k < (i + 1) * blockSize && k < received ==> joined[k] == bytes[k]
    {
      var offset := i * blockSize;
      MulMonotone(i, |blocks| - 1, blockSize);
      var len := CopyLength(received, offset, blockSize);
      var block := blocks[i];
      forall k | 0 <= k < len { joined[offset + k] := block[k]; }
      assert (i + 1) * blockSize == offset + blockSize;
      if gapless {
        forall k | 0 <= k < offset + blockSize && k < received
          ensures joined[k] == bytes[k]
        {
          if k >= offset {
            assert joined[offset + (k - offset)] == block[k - offset];
            assert Index(i, k - offset, blockSize) == k;
          }
        }
      }
    }

    /** The blocks joined into one buffer of exactly the received length. */
    method Join() returns (joined: array<Byte>)
      requires Valid() && data == null && Joinable(received, |blocks|, blockSize)
      ensures fresh(joined) && joined.Length == received && (gapless ==> joined[..] == bytes)
    {
      joined := new Byte[received];
      var i := 0;
      while i < |blocks|
        invariant 0 <= i <= |blocks|
        invariant gapless ==> forall k :: 0 <= k < i * blockSize && k < received ==> joined[k] == bytes[k]
      {
        CopyBlock(i, joined);
        i := i + 1;
      }
      BlocksBounds(received, blockSize);
    }

    /** The blocks are joined once, and freed. */
    method JoinOnce()
      requires Valid() && (data == null ==> gapless || Joinable(received, |blocks|, blockSize))
      modifies this`data, this`blocks
      ensures old(data) != null ==> data == old(data) && blocks == old(blocks)
      ensures old(data) == null ==>
        fresh(data) && blocks == [] && data.Length == received && (gapless ==> data[..] == bytes)
    {
      if data == null {
        BlocksBounds(received, blockSize);
        data := Join();
        blocks := [];
      }
    }

    /**
     `stream` is the header text of the event's stream, if the event has one. Without gaps in the data, the callback
     is given exactly the bytes received; with gaps, a buffer of their number, if the blocks can be joined at all.
     */
    method OnStreamCompleted(success: bool, stream: Option<string>) returns (handled: bool)
      requires Valid() && (success && data == null ==> gapless || Joinable(received, |blocks|, blockSize))
      modifies this
      ensures Valid() && !handled && (success ==> data != null) && gapless == old(gapless)
      ensures blocks == (if success && old(data) == null then [] else old(blocks))
      ensures data == old(data) || (success && old(data) == null && fresh(data))
      ensures old(gapless) || !success || old(data) != null ==> State() == OnCompleted(old(State()), success, stream)
      ensures !callback && !self && bytes == old(bytes)
      ensures !success && old(callback) ==> calls == old(calls) + [HttpResult(false, [], [], received)]
      ensures success && old(callback) && stream.Some? ==>
        && calls == old(calls) + [HttpResult(true, Entries(Split(stream.value)), data[..], received)]
        && data.Length == received && (gapless ==> data[..] == bytes)
      ensures !old(callback) || (success && stream.None?) ==> calls == old(calls)
    {
      if !success {
        if callback { calls := calls + [HttpResult(false, [], [], received)]; }
        callback := false;
        self := false;
        return false;
      }
      JoinOnce();
      if callback && stream.Some? {
        var headers := ParseHttpHeaders(stream.value);
        calls := calls + [HttpResult(true, headers, data[..], received)];
      }
      callback := false;
      self := false;
      return false;
    }
  }

  // ---- From the stream to the callback ----

  /** The observer as a stream with these headers drives it: each event goes to its handler. */
  method HandleEvents(h: SimpleStreamHelper, headers: string, events: seq<Event>)
    requires h.Valid() && h.gapless && headers == h.source && Deliverable(h.State(), events)
    modifies h, h.blocks
    ensures h.Valid() && h.State() == Observe(old(h.State()), events)
  {
    var k := 0;
    while k < |events|
      invariant 0 <= k <= |events| && h.Valid() && h.gapless
      invariant forall i :: 0 <= i < |h.blocks| ==> h.blocks[i] in old(h.blocks) || fresh(h.blocks[i])
      invariant Deliverable(h.State(), events[k..])
      invariant Observe(h.State(), events[k..]) == Observe(old(h.State()), events)
    {
      assert events[k..][0] == events[k] && events[k..][1..] == events[k + 1..];
      HandleEvent(h, headers, events[k]);
      k := k + 1;
    }
  }

  method HandleEvent(h: SimpleStreamHelper, headers: string, e: Event)
    requires h.Valid() && h.gapless && headers == h.source && (e.DataArrived? ==> e.offset == |h.bytes| && h.callback)
    modifies h, h.blocks
    ensures h.Valid() && h.gapless && h.State() == OnEvent(old(h.State()), e)
    ensures forall i :: 0 <= i < |h.blocks| ==> h.blocks[i] in old(h.blocks) || fresh(h.blocks[i])
  {
    match e {
      case DataArrived(data, offset) => h.OnStreamDataArrived(data, offset);
      case Completed(success) => var _ := h.OnStreamCompleted(success, Some(headers));
      case _ =>
    }
  }

  /**
   End to end, with the blocks: a helper with blocks of any size, on a stream with any buffer size, any body, and any
   offers, calls its callback once, with the part of the body that the offers got to.
   */
  method ReceiveBody(source: string, blockSize: nat, s: Stream, seekable: bool, body: seq<Byte>, offers: seq<nat>,
                     done: bool, late: seq<Op>, notifyDone: bool) returns (h: SimpleStreamHelper)
    requires blockSize > 0 && Fresh(s) && !s.seekableRequested && AllWrites(late)
    ensures var end := FeedEnd(s.bufferSize, body, 0, offers);
            && h.Valid()
            && h.calls == [if done then HttpResult(true, Entries(Split(source)), body[..end], end)
                           else HttpResult(false, [], [], end)]
  {
    h := new SimpleStreamHelper(blockSize, source);
    FedPartArrives(source, s, seekable, body, offers, done, late, notifyDone);
    HandleEvents(h, source, Run(s, OrdinaryRun(s, seekable, body, offers, done, late, notifyDone)).trace);
  }
}
