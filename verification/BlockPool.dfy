/**
  The shared block pool over the linked free queue, and the two recipes that were meant to
  fragment it.
 */
module BlockPools {
  import opened BlockStates
  import opened FreeQueues
  import opened Outcomes
  import opened Runners

  datatype PoolError = Exhausted | Reserved | OutOfRange | DoubleFree

  /** Every block's fields say what the state says. */
  ghost predicate Mirrors(blocks: seq<Block>, head: Block, tail: Block, state: Pool)
    reads blocks`refCount, blocks`hash
  {
    && |blocks| == |state.refs| == |state.hashes|
    && forall b | 0 <= b < |blocks| ::
         && blocks[b].id == b && blocks[b] != head && blocks[b] != tail
         && blocks[b].refCount == state.refs[b] && blocks[b].hash == state.hashes[b]
  }

  /** The linked queue holds exactly the free blocks, in order; the others are unlinked. */
  ghost predicate Queued(blocks: seq<Block>, items: seq<Block>, free: seq<nat>)
    reads blocks`prev, blocks`next
  {
    && |items| == |free| && (forall i | 0 <= i < |free| :: free[i] < |blocks| && items[i] == blocks[free[i]])
    && (forall b | 0 <= b < |blocks| && b !in free :: blocks[b].prev == null && blocks[b].next == null)
  }

  method NewBlocks(n: nat) returns (bs: seq<Block>)
    ensures |bs| == n && fresh(bs)
    ensures forall b | 0 <= b < n ::
              bs[b].id == b && bs[b].refCount == 0 && bs[b].hash == None && bs[b].prev == null && bs[b].next == null
  {
    bs := [];
    for i := 0 to n
      invariant |bs| == i && fresh(bs)
      invariant forall b | 0 <= b < i ::
                  bs[b].id == b && bs[b].refCount == 0 && bs[b].hash == None && bs[b].prev == null && bs[b].next == null
    {
      var block := new Block(i);
      bs := bs + [block];
    }
  }

  method QueueAll(bs: seq<Block>, reserved: nat) returns (q: FreeBlockQueue)
    requires reserved <= |bs| && forall b | 0 <= b < |bs| :: bs[b].id == b && bs[b].prev == null && bs[b].next == null
    modifies bs`prev, bs`next
    ensures q.Valid() && fresh(q) && fresh(q.head) && fresh(q.tail) && q.items == bs[reserved..]
    ensures forall b | 0 <= b < reserved :: bs[b].prev == null && bs[b].next == null
  {
    hide Chain, FreeBlockQueue.Valid;
    q := new FreeBlockQueue();
    for i := reserved to |bs|
      invariant q.Valid() && fresh(q) && fresh(q.head) && fresh(q.tail) && q.items == bs[reserved..i]
      invariant forall b | 0 <= b < |bs| && (b < reserved || i <= b) :: bs[b].prev == null && bs[b].next == null
    {
      OthersApart(bs, reserved, i);
      assert bs[reserved..i + 1] == bs[reserved..i] + [bs[i]];
      var r := q.Append(bs[i]);
    }
  }

  lemma OthersApart(bs: seq<Block>, reserved: nat, i: nat)
    requires reserved <= i < |bs| && forall b | 0 <= b < |bs| :: bs[b].id == b
    ensures bs[i] !in bs[reserved..i]
    ensures forall b | 0 <= b < |bs| && (b < reserved || i < b) :: bs[b] != bs[i] && bs[b] !in bs[reserved..i]
  {
    assert forall j | 0 <= j < i - reserved :: bs[reserved..i][j].id == reserved + j;
  }

  /** Take the front block out of the queue. */
  method PopFront(blocks: seq<Block>, queue: FreeBlockQueue, ghost free: seq<nat>) returns (block: Block)
    requires queue.head !in blocks && queue.tail !in blocks && free != [] && free[0] !in free[1..]
    requires Queued(blocks, queue.items, free) && forall c | 0 <= c < |blocks| :: blocks[c].id == c
    requires queue.Valid()
    modifies queue, queue.head, queue.tail, blocks`prev, blocks`next
    ensures free[0] < |blocks| && block == blocks[free[0]] && Queued(blocks, queue.items, free[1..])
    ensures queue.Valid()
  {
    hide Chain;
    Elsewhere(blocks, queue, free);
    assert queue.items[0] == blocks[free[0]];
    var r := queue.PopLeft();
    block := r.value;
    assert forall c | c in free :: c == free[0] || c in free[1..];
  }

  /** Put an unlinked block back, at the back if it is still published and in front if not. */
  method Requeue(blocks: seq<Block>, queue: FreeBlockQueue, b: nat, ghost free: seq<nat>, published: bool)
    requires queue.head !in blocks && queue.tail !in blocks && b < |blocks| && b !in free
    requires Queued(blocks, queue.items, free) && forall c | 0 <= c < |blocks| :: blocks[c].id == c
    requires queue.Valid()
    modifies queue, queue.head, queue.tail, blocks`prev, blocks`next
    ensures Queued(blocks, queue.items, if published then free + [b] else [b] + free)
    ensures queue.Valid()
  {
    hide Chain;
    Elsewhere(blocks, queue, free);
    var r;
    if published {
      r := queue.Append(blocks[b]);
    } else {
      r := queue.AppendLeft(blocks[b]);
    }
  }

  /** Take a queued block out, wherever it is. */
  method Unqueue(blocks: seq<Block>, queue: FreeBlockQueue, b: nat, ghost free: seq<nat>)
    requires queue.head !in blocks && queue.tail !in blocks && b < |blocks| && b in free && Distinct(free)
    requires Queued(blocks, queue.items, free) && forall c | 0 <= c < |blocks| :: blocks[c].id == c
    requires queue.Valid()
    modifies queue, queue.head, queue.tail, blocks`prev, blocks`next
    ensures Queued(blocks, queue.items, Without(free, b))
    ensures queue.Valid()
  {
    hide Chain, Without;
    ghost var i :| 0 <= i < |free| && free[i] == b;
    assert queue.items[i] == blocks[b];
    Elsewhere(blocks, queue, free);
    ghost var was := queue.items;
    var r := queue.Remove(blocks[b], i);
    QueuedWithout(blocks, was, free, b, i);
  }

  lemma Elsewhere(blocks: seq<Block>, queue: FreeBlockQueue, free: seq<nat>)
    requires queue.head !in blocks && queue.tail !in blocks
    requires Queued(blocks, queue.items, free) && forall c | 0 <= c < |blocks| :: blocks[c].id == c
    ensures forall c | 0 <= c < |blocks| && c !in free :: blocks[c] !in queue.Nodes()
  {
    forall c | 0 <= c < |blocks| && c !in free ensures blocks[c] !in queue.Nodes() {
      assert forall k | 0 <= k < |free| :: blocks[free[k]].id == free[k];
    }
  }

  lemma QueuedWithout(blocks: seq<Block>, items: seq<Block>, free: seq<nat>, b: nat, i: nat)
    requires Distinct(free) && i < |free| == |items| && free[i] == b < |blocks|
    requires forall k | 0 <= k < |free| :: free[k] < |blocks| && items[k] == blocks[free[k]]
    requires forall c | 0 <= c < |blocks| && c !in free :: blocks[c].prev == null && blocks[c].next == null
    requires blocks[b].prev == null && blocks[b].next == null
    ensures Queued(blocks, items[..i] + items[i + 1..], Without(free, b))
  {
    hide Without, Queued;
    WithoutAt(free, b, i);
    assert forall c | 0 <= c < |blocks| && c !in Without(free, b) :: c == b || c !in free;
    hide Distinct;
    QueuedCut(blocks, items, free, i, Without(free, b));
  }

  lemma QueuedCut(blocks: seq<Block>, items: seq<Block>, free: seq<nat>, i: nat, shorter: seq<nat>)
    requires i < |free| == |items| && shorter == free[..i] + free[i + 1..]
    requires forall k | 0 <= k < |free| :: free[k] < |blocks| && items[k] == blocks[free[k]]
    requires forall c | 0 <= c < |blocks| && c !in shorter :: blocks[c].prev == null && blocks[c].next == null
    ensures Queued(blocks, items[..i] + items[i + 1..], shorter)
  {
    forall k | 0 <= k < |shorter|
      ensures shorter[k] < |blocks| && (items[..i] + items[i + 1..])[k] == blocks[shorter[k]]
    {
      if k < i {
        assert shorter[k] == free[k];
      } else {
        assert shorter[k] == free[k + 1];
      }
    }
  }

  /** Whether a block may be released. */
  function Refusal(p: Pool, reserved: nat, b: nat): Result<(), PoolError> {
    if b < reserved then Err(Reserved)
    else if b >= |p.refs| then Err(OutOfRange)
    else if p.refs[b] == 0 then Err(DoubleFree)
    else Ok(())
  }

  class BlockPool {
    const reserved: nat
    const blocks: seq<Block>
    const queue: FreeBlockQueue
    var index: map<nat, nat>
    /** Queue contents, reference counts and hashes by block id. */
    ghost var state: Pool

    ghost predicate Valid()
      reads this, queue, queue.head, queue.tail, blocks
    {
      && 1 <= reserved && Tidy(state, reserved) && state.index == index
      && Queued(blocks, queue.items, state.free) && Mirrors(blocks, queue.head, queue.tail, state)
      && queue.Valid()
    }

    lemma Ready()
      requires Valid()
      ensures Shaped(state) && Distinct(state.free) && forall i | 0 <= i < |state.free| :: reserved <= state.free[i]
    {
      hide Chain;
    }

    lemma Sizes()
      requires Valid()
      ensures queue.length == |state.free|
    {
      hide Tidy, Chain;
    }

    /** All blocks but the reserved ones start queued, in ascending order. */
    constructor (numBlocks: nat, reserved: nat)
      requires 1 <= reserved < numBlocks
      ensures Valid() && this.reserved == reserved && fresh(queue) && fresh(queue.head) && fresh(queue.tail)
      ensures fresh(blocks)
      ensures state == Initial(numBlocks, reserved) && IndexTrue(state)
    {
      hide Tidy, Chain;
      InitialIndex(numBlocks, reserved);
      hide IndexTrue;
      var bs := NewBlocks(numBlocks);
      var q := QueueAll(bs, reserved);
      this.reserved, this.blocks, queue, index := reserved, bs, q, map[];
      state := Initial(numBlocks, reserved);
      InitialIsTidy(numBlocks, reserved);
    }

    /** Take the front block, unpublishing it first if it still carried a hash. */
    method TakeFront() returns (b: nat)
      requires Valid() && state.free != []
      modifies this`index, this`state, queue, queue.head, queue.tail, blocks
      ensures Valid() && b == old(state.free)[0] && state == TakeOne(old(state))
      ensures IndexTrue(old(state)) ==> IndexTrue(state)
    {
      hide Tidy, Chain, TakeOne, Queued, IndexTrue, FreeBlockQueue.Valid;
      TakeKeepsTidy(state, reserved);
      TidyFront(state, reserved);
      TakeOneParts(state);
      if IndexTrue(state) {
        TakeKeepsIndex(state);
      }
      var block := PopFront(blocks, queue, state.free);
      b := block.id;
      if block.hash.Some? {
        index := index - {block.hash.value};
        block.hash := None;
      }
      block.refCount := 1;
      state := TakeOne(state);
    }

    /** Hand out n blocks, front first, or refuse and change nothing. */
    method Allocate(n: nat) returns (r: Result<seq<nat>, PoolError>)
      requires Valid()
      modifies this`index, this`state, queue, queue.head, queue.tail, blocks
      ensures Valid()
      ensures r == if n <= |old(state).free| then Ok(old(state).free[..n]) else Err(Exhausted)
      ensures Shaped(old(state)) && state == if r.Ok? then Taken(old(state), n) else old(state)
      ensures IndexTrue(old(state)) ==> IndexTrue(state)
    {
      hide Tidy, Chain, Mirrors, Queued, TakeOne, IndexTrue, FreeBlockQueue.Valid;
      TidyMeans(state, reserved);
      Sizes();
      if n > queue.length {
        return Err(Exhausted);
      }
      var ids: seq<nat> := [];
      for i := 0 to n
        invariant Valid() && state == Taken(old(state), i) && ids == old(state).free[..i]
        invariant IndexTrue(old(state)) ==> IndexTrue(state)
      {
        assert state.free == old(state).free[i..];
        var b := TakeFront();
        ids := ids + [b];
      }
      return Ok(ids);
    }

    /** Give one reference up, or say why not. */
    method Release(b: nat) returns (r: Result<(), PoolError>)
      requires Valid()
      modifies this`state, queue, queue.head, queue.tail, blocks
      ensures Valid()
      ensures r == Refusal(old(state), reserved, b)
      ensures state == if r.Ok? then FreeOne(old(state), b) else old(state)
      ensures r.Ok? ==>
                && b < |old(state).refs| == |old(state).hashes| && old(state).refs[b] > 0
                && state.refs == old(state).refs[b := old(state).refs[b] - 1]
                && state.free == (if old(state).refs[b] > 1 then old(state).free
                                  else if old(state).hashes[b] == None then [b] + old(state).free
                                  else old(state).free + [b])
                && state.hashes == old(state).hashes && state.index == old(state).index
      ensures IndexTrue(old(state)) ==> IndexTrue(state)
    {
      hide Tidy, Chain, FreeOne, Queued, IndexTrue, FreeBlockQueue.Valid;
      if b < reserved {
        return Err(Reserved);
      }
      if b >= |blocks| {
        return Err(OutOfRange);
      }
      var block := blocks[b];
      if block.refCount == 0 {
        return Err(DoubleFree);
      }
      FreeKeepsTidy(state, reserved, b);
      TidyOther(state, reserved, b);
      FreeOneParts(state, b);
      if IndexTrue(state) {
        FreeKeepsIndex(state, b);
      }
      block.refCount := block.refCount - 1;
      if block.refCount == 0 {
        Requeue(blocks, queue, b, state.free, block.hash.Some?);
      }
      state := FreeOne(state, b);
      return Ok(());
    }

    /** Give up one reference to each block in turn; a bad block stops the loop with everything
        before it already released. */
    method Free(ids: seq<nat>) returns (r: Result<(), PoolError>, ghost done: nat)
      requires Valid()
      modifies this`state, queue, queue.head, queue.tail, blocks
      ensures Valid() && done <= |ids| && Freeable(old(state), ids[..done]) && state == FreeAll(old(state), ids[..done])
      ensures if done == |ids| then r == Ok(()) else r.Err? && r == Refusal(state, reserved, ids[done])
      ensures IndexTrue(old(state)) ==> IndexTrue(state)
    {
      hide Tidy, Chain, Mirrors, Queued, FreeOne, Refusal, Freeable, FreeAll, IndexTrue, FreeBlockQueue.Valid;
      done := 0;
      FreeNone(state);
      TidyMeans(state, reserved);
      for i := 0 to |ids|
        invariant Valid() && done == i && Freeable(old(state), ids[..i]) && state == FreeAll(old(state), ids[..i])
        invariant IndexTrue(old(state)) ==> IndexTrue(state)
      {
        r := Release(ids[i]);
        if r.Err? {
          return;
        }
        FreeSnoc(old(state), ids[..i], ids[i], reserved);
        assert ids[..i + 1] == ids[..i] + [ids[i]];
        done := i + 1;
      }
      assert ids[..|ids|] == ids;
      r := Ok(());
    }

    /** Publish a block's content; a hash published already stays where it is. */
    method CacheBlock(b: nat, h: nat) returns (r: Result<(), PoolError>)
      requires Valid()
      modifies this`index, this`state, blocks`hash
      ensures Valid()
      ensures r == if b < reserved then Err(Reserved) else if b >= |blocks| then Err(OutOfRange) else Ok(())
      ensures state == if r.Ok? then Publish(old(state), b, h) else old(state)
      ensures state.free == old(state).free && state.refs == old(state).refs
      ensures r.Ok? && h !in old(index) ==>
                && b < |state.hashes| && state.hashes[b] == Some(h)
                && h in index && index[h] == b && blocks[b].hash == Some(h)
      ensures IndexTrue(old(state)) ==>
                (IndexTrue(state) <==> r.Err? || h in old(index) || (b < |blocks| && old(blocks[b].hash) == None))
    {
      hide Tidy, Chain, Queued, FreeBlockQueue.Valid;
      if b < reserved {
        return Err(Reserved);
      }
      if b >= |blocks| {
        return Err(OutOfRange);
      }
      PublishKeepsTidy(state, reserved, b, h);
      if IndexTrue(state) {
        PublishKeepsIndexIff(state, b, h);
      }
      hide IndexTrue;
      if h !in index {
        blocks[b].hash := Some(h);
        index := index[h := b];
      }
      state := Publish(state, b, h);
      return Ok(());
    }

    /** Add a reference, taking a queued block out of the queue first.  Sharing a block and
        hitting a cached one are the same operation: although sharing is documented to refuse a
        block nobody holds, it revives it just as a hit does. */
    method AddReference(b: nat) returns (r: Result<(), PoolError>)
      requires Valid()
      modifies this`state, queue, queue.head, queue.tail, blocks
      ensures Valid()
      ensures r == if b < reserved then Err(Reserved) else if b >= |blocks| then Err(OutOfRange) else Ok(())
      ensures state == if r.Ok? then Touch(old(state), b) else old(state)
      ensures r.Ok? ==>
                && b < |old(state).refs| && state.refs == old(state).refs[b := old(state).refs[b] + 1]
                && b !in state.free && (forall c | c != b :: c in state.free <==> c in old(state).free)
                && state.hashes == old(state).hashes && state.index == old(state).index
      ensures IndexTrue(old(state)) ==> IndexTrue(state)
    {
      hide Tidy, Chain, Queued, Without, IndexTrue, Touch, FreeBlockQueue.Valid;
      if b < reserved {
        return Err(Reserved);
      }
      if b >= |blocks| {
        return Err(OutOfRange);
      }
      TouchKeepsTidy(state, reserved, b);
      TouchParts(state, b);
      TidyOther(state, reserved, b);
      TidyMeans(state, reserved);
      if IndexTrue(state) {
        TouchKeepsIndex(state, b);
      }
      var block := blocks[b];
      if block.refCount == 0 {
        Unqueue(blocks, queue, b, state.free);
      }
      block.refCount := block.refCount + 1;
      state := Touch(state, b);
      return Ok(());
    }

    /** Serve a request that needs n blocks and release its slot: the blocks go out front first
        and come back last first. */
    method ChurnSlot(n: nat) returns (r: Result<seq<nat>, PoolError>)
      requires Valid()
      modifies this`index, this`state, queue, queue.head, queue.tail, blocks
      ensures Valid() && r == (if n <= |old(state).free| then Ok(old(state).free[..n]) else Err(Exhausted))
      ensures state.free == old(state).free && state.refs == old(state).refs
      ensures |state.hashes| == |old(state).hashes|
      ensures forall b | 0 <= b < |state.hashes| && old(state).hashes[b] == None :: state.hashes[b] == None
      ensures IndexTrue(old(state)) ==> IndexTrue(state)
      ensures (forall i | 0 <= i < n && i < |old(state).free| ::
                 old(state).free[i] < |old(state).hashes| && old(state).hashes[old(state).free[i]] == None)
              ==> state == old(state)
    {
      hide Tidy, Chain, Mirrors, Queued, Taken, FreeAll, Freeable, IndexTrue, FreeBlockQueue.Valid;
      ghost var before := state;
      r := Allocate(n);
      if r.Err? {
        return;
      }
      ChurnIsIdentity(before, reserved, n);
      TidyMeans(before, reserved);
      TakenBlocks(before, n);
      var reversed := ReverseIds(r.value);
      var released;
      ghost var done;
      released, done := Free(reversed);
      TidyRange(before, reserved);
      WholeFree(Taken(before, n), reversed, done, reserved);
    }
  }

  method ReverseIds(s: seq<nat>) returns (r: seq<nat>)
    ensures r == Reversed(s)
  {
    r := [];
    for i := 0 to |s|
      invariant r == Reversed(s[..i])
    {
      assert s[..i + 1][..i] == s[..i];
      r := [s[i]] + r;
    }
    assert s[..|s|] == s;
  }

  lemma FreeNone(p: Pool)
    ensures Freeable(p, []) && FreeAll(p, []) == p
  {
  }

  lemma {:induction false} FreeSnoc(p: Pool, front: seq<nat>, b: nat, reserved: nat)
    requires |p.refs| == |p.hashes| && Freeable(p, front) && Refusal(FreeAll(p, front), reserved, b).Ok?
    ensures Freeable(p, front + [b]) && FreeAll(p, front + [b]) == FreeOne(FreeAll(p, front), b)
    decreases |front|
  {
    if front == [] {
      assert [] + [b] == [b] && [b][1..] == [];
    } else {
      FreeSnoc(FreeOne(p, front[0]), front[1..], b, reserved);
      assert (front + [b])[1..] == front[1..] + [b];
    }
  }

  lemma {:induction false} FreeableAt(p: Pool, ids: seq<nat>, k: nat)
    requires Freeable(p, ids) && k < |ids|
    ensures Freeable(p, ids[..k]) && ids[k] < |p.refs| && FreeAll(p, ids[..k]).refs[ids[k]] > 0
    decreases |ids|
  {
    if k > 0 {
      FreeableAt(FreeOne(p, ids[0]), ids[1..], k - 1);
      assert ids[1..][..k - 1] == ids[..k][1..];
    }
  }

  /** Releasing what one holds never stops half way. */
  lemma WholeFree(p: Pool, ids: seq<nat>, done: nat, reserved: nat)
    requires Freeable(p, ids) && done <= |ids| && Freeable(p, ids[..done])
    requires forall i | 0 <= i < |ids| :: reserved <= ids[i]
    requires done < |ids| ==> Refusal(FreeAll(p, ids[..done]), reserved, ids[done]).Err?
    ensures done == |ids| && ids[..done] == ids
  {
    hide Freeable, FreeAll;
    if done < |ids| {
      FreeableAt(p, ids, done);
    }
  }

  lemma TidyRange(p: Pool, reserved: nat)
    requires Tidy(p, reserved)
    ensures forall i | 0 <= i < |p.free| :: reserved <= p.free[i] < |p.refs|
  {
  }

  // ---------------------------------------------------------------------------
  // The fragmentation recipes.
  // ---------------------------------------------------------------------------

  /** Blocks referred to once each and not published. */
  ghost predicate HeldOnce(p: Pool, ids: seq<nat>) {
    && |p.refs| == |p.hashes| && Distinct(ids)
    && forall i | 0 <= i < |ids| :: ids[i] < |p.refs| && p.refs[ids[i]] == 1 && p.hashes[ids[i]] == None
  }

  /** Hold everything beyond a small working set, then serve and release tiny requests on each
      scratch slot in turn, several times over.  Every one of them gets the very same blocks. */
  method SpongeAndChurn(pool: BlockPool, workingSet: nat, cycles: nat, scratch: nat, tiny: nat)
    returns (r: Result<seq<nat>, PoolError>, served: seq<seq<nat>>)
    requires pool.Valid()
    modifies pool`index, pool`state, pool.queue, pool.queue.head, pool.queue.tail, pool.blocks
    ensures pool.Valid()
    ensures var free := old(pool.state).free; var held := Sponge(|free|, workingSet);
            && (r.Ok? <==> tiny <= |free| - held || cycles == 0 || scratch == 0)
            && (r.Ok? ==> r.value == free[..held] && pool.state.free == free[held..])
            && (r.Ok? ==> |served| == cycles * scratch)
            && (forall i | 0 <= i < |served| :: tiny <= |free| - held && served[i] == free[held..held + tiny])
            && (r.Ok? ==> HeldOnce(pool.state, free[..held]))
  {
    hide Taken, Shaped, BlockPool.Valid, Distinct;
    served := [];
    ghost var free := pool.state.free;
    pool.Sizes();
    pool.Ready();
    var held := Sponge(pool.queue.length, workingSet);
    TakenHeld(pool.state, held);
    r := pool.Allocate(held);
    for i := 0 to cycles
      invariant pool.Valid() && pool.state.free == free[held..] && r == Ok(free[..held])
      invariant HeldOnce(pool.state, free[..held])
      invariant tiny <= |free| - held || i == 0 || scratch == 0
      invariant |served| == i * scratch
      invariant forall m | 0 <= m < |served| :: tiny <= |free| - held && served[m] == free[held..held + tiny]
    {
      for j := 0 to scratch
        invariant pool.Valid() && pool.state.free == free[held..] && r == Ok(free[..held])
      invariant HeldOnce(pool.state, free[..held])
        invariant tiny <= |free| - held || (i == 0 && j == 0) || scratch == 0
        invariant HeldOnce(pool.state, free[..held]) && |served| == i * scratch + j
        invariant forall m | 0 <= m < |served| :: tiny <= |free| - held && served[m] == free[held..held + tiny]
      {
        var c := pool.ChurnSlot(tiny);
        if c.Err? {
          return Err(c.error), served;
        }
        assert free[held..][..tiny] == free[held..held + tiny];
        served := served + [c.value];
      }
      assert (i + 1) * scratch == i * scratch + scratch;
    }
  }

  function Sponge(free: nat, workingSet: nat): nat {
    if free > workingSet then free - workingSet else 0
  }

  method IsContiguous(table: seq<nat>) returns (c: bool)
    ensures c == Contiguous(table)
  {
    c := true;
    for i := 0 to if table == [] then 0 else |table| - 1
      invariant c == forall j | 0 <= j < i :: table[j + 1] == table[j] + 1
    {
      c := c && table[i + 1] == table[i] + 1;
    }
  }

  lemma TakenHeld(p: Pool, n: nat)
    requires Shaped(p) && Distinct(p.free) && n <= |p.free|
    ensures HeldOnce(Taken(p, n), p.free[..n])
  {
    hide Taken;
    TakenBlocks(p, n);
  }

  lemma FrontIsApart(s: seq<nat>, n: nat)
    requires Distinct(s) && n <= |s|
    ensures forall i | 0 <= i < n :: s[..n][i] !in s[n..]
  {
    forall i | 0 <= i < n ensures s[..n][i] !in s[n..] {
      assert forall j | 0 <= j < |s| - n :: s[n..][j] == s[n + j];
    }
  }

  /** Handing out queued blocks leaves the others as they are. */
  lemma StillHeld(p: Pool, n: nat, ids: seq<nat>)
    requires Shaped(p) && Distinct(p.free) && n <= |p.free| && HeldOnce(p, ids)
    requires forall i | 0 <= i < |ids| :: ids[i] !in p.free
    ensures HeldOnce(Taken(p, n), ids)
  {
    hide Taken;
    TakenBlocks(p, n);
  }

  lemma {:induction false} ReversedTwice(s: seq<nat>)
    ensures Reversed(Reversed(s)) == s
  {
    var r := Reversed(s);
    assert forall i | 0 <= i < |s| :: Reversed(r)[i] == r[|s| - 1 - i] == s[i];
  }

  /** Releasing held, unpublished blocks in order stacks them in front the other way round. */
  lemma {:induction false} Unstack(p: Pool, reserved: nat, ids: seq<nat>, done: nat)
    requires HeldOnce(p, ids) && done <= |ids| && forall i | 0 <= i < |ids| :: reserved <= ids[i]
    requires Freeable(p, ids[..done])
    requires done < |ids| ==> Refusal(FreeAll(p, ids[..done]), reserved, ids[done]).Err?
    ensures done == |ids| && FreeAll(p, ids[..done]).free == Reversed(ids) + p.free
  {
    hide Freeable, FreeAll, Reversed;
    var back := Reversed(ids);
    ReversedTwice(ids);
    StackBack(p, back);
    WholeFree(p, ids, done, reserved);
  }

  /** The fragmentation step of the block-table test: run the recipe, then serve the long
      request, let the held blocks go and look at its table.  The table is contiguous exactly when
      the same stretch of the queue was before the recipe ran: the churn contributes nothing. */
  method ProbeFragmentation(pool: BlockPool, need: nat, margin: nat, cycles: nat, scratch: nat, tiny: nat)
    returns (r: Result<bool, PoolError>, table: seq<nat>)
    requires pool.Valid()
    modifies pool`index, pool`state, pool.queue, pool.queue.head, pool.queue.tail, pool.blocks
    ensures pool.Valid()
    ensures var free := old(pool.state).free; var held := Sponge(|free|, need + margin);
            && (r.Ok? <==> need <= |free| && (tiny <= |free| - held || cycles == 0 || scratch == 0))
            && (r.Ok? ==> r.value == Contiguous(free[held..held + need]) && table == free[held..held + need])
            && (r.Ok? ==> pool.state.free == Reversed(free[..held]) + free[held + need..])
  {
    hide Taken, Shaped, BlockPool.Valid, Contiguous, Distinct, Freeable, FreeAll, HeldOnce;
    table := [];
    ghost var free := pool.state.free;
    ghost var held := Sponge(|free|, need + margin);
    pool.Ready();
    FrontIsApart(free, held);
    var sponge, served := SpongeAndChurn(pool, need + margin, cycles, scratch, tiny);
    if sponge.Err? {
      return Err(sponge.error), table;
    }
    label churned:
    pool.Ready();
    var given := pool.Allocate(need);
    if given.Err? {
      return Err(given.error), table;
    }
    table := given.value;
    assert free[held..][..need] == free[held..held + need];
    StillHeld(old@churned(pool.state), need, free[..held]);
    ghost var served' := pool.state;
    var released;
    ghost var count;
    released, count := pool.Free(sponge.value);
    assert free[held..][need..] == free[held + need..];
    Unstack(served', pool.reserved, free[..held], count);
    var c := IsContiguous(table);
    r := Ok(c);
  }

  /** On a pool whose tail was never used the recipe proves nothing: the table is contiguous
      however often it churns, and the test that demands fragmentation fails. */
  method ProbeVirginTail(pool: BlockPool, v: nat, need: nat, margin: nat, cycles: nat, scratch: nat, tiny: nat)
    returns (contiguous: bool)
    requires pool.Valid() && VirginTail(pool.state, v) && tiny <= need + margin <= v
    modifies pool`index, pool`state, pool.queue, pool.queue.head, pool.queue.tail, pool.blocks
    ensures pool.Valid() && contiguous
  {
    hide BlockPool.Valid, Contiguous;
    VirginTailIsContiguous(pool.state, v, need, margin);
    var r, table := ProbeFragmentation(pool, need, margin, cycles, scratch, tiny);
    contiguous := r.value;
  }

  lemma TidyOther(p: Pool, reserved: nat, b: nat)
    requires Tidy(p, reserved) && b < |p.refs|
    ensures |p.refs| == |p.hashes| && (b in p.free <==> reserved <= b && p.refs[b] == 0)
  {
  }

  lemma TakeOneParts(p: Pool)
    requires p.free != [] && p.free[0] < |p.refs| == |p.hashes|
    ensures var q, b := TakeOne(p), p.free[0];
            && q.free == p.free[1..] && q.refs == p.refs[b := 1] && q.hashes == p.hashes[b := None]
            && q.index == if p.hashes[b].Some? then p.index - {p.hashes[b].value} else p.index
  {
  }

  lemma TidyFront(p: Pool, reserved: nat)
    requires Tidy(p, reserved) && p.free != []
    ensures |p.refs| == |p.hashes| && p.free[0] < |p.refs| && p.free[0] !in p.free[1..]
  {
  }
}
