/**
  The intrusive doubly linked queue of free blocks.  Links live on the blocks; two sentinels
  close the ends.  The front is handed out next, the back last.
 */
module FreeQueues {
  import opened Outcomes

  class Block {
    const id: int
    var refCount: nat
    var hash: Option<nat>
    var prev: Block?
    var next: Block?

    constructor (id: int)
      ensures this.id == id && refCount == 0 && hash == None && prev == null && next == null
    {
      this.id := id;
      refCount, hash, prev, next := 0, None, null, null;
    }
  }

  datatype QueueError = AlreadyLinked | Empty | NotLinked

  /** `nodes` is a chain: neighbours point at each other and no block occurs twice. */
  ghost predicate Chain(nodes: seq<Block>)
    reads nodes`prev, nodes`next
  {
    && |nodes| >= 2 && nodes[0].prev == null && nodes[|nodes| - 1].next == null
    && (forall i | 0 <= i < |nodes| - 1 :: nodes[i].next == nodes[i + 1] && nodes[i + 1].prev == nodes[i])
    && (forall i, j | 0 <= i < j < |nodes| :: nodes[i] != nodes[j])
  }

  class FreeBlockQueue {
    const head: Block
    const tail: Block
    var length: nat
    ghost var items: seq<Block>

    ghost function Nodes(): seq<Block>
      reads this
    {
      [head] + items + [tail]
    }

    ghost predicate Valid()
      reads this, Nodes()`prev, Nodes()`next
    {
      Chain(Nodes()) && length == |items|
    }

    constructor ()
      ensures Valid() && items == [] && fresh(head) && fresh(tail) && head.id == -1 && tail.id == -2
    {
      head := new Block(-1);
      tail := new Block(-2);
      length, items := 0, [];
      new;
      head.next := tail;
      tail.prev := head;
    }

    /** A block is in the queue exactly when both its links are set. */
    method Contains(block: Block) returns (linked: bool)
      requires Valid() && block != head && block != tail
      requires block !in items ==> block.prev == null || block.next == null
      ensures linked <==> block in items
    {
      linked := block.prev != null && block.next != null;
      if block in items {
        var i :| 0 <= i < |items| && items[i] == block;
        Inside(i);
      }
    }

    lemma Inside(i: nat)
      requires Valid() && i < |items|
      ensures items[i].prev == Nodes()[i] && items[i].next == Nodes()[i + 2]
    {
      assert Nodes()[i + 1] == items[i];
    }

    /** Park a block at the back. */
    method Append(block: Block) returns (r: Result<(), QueueError>)
      requires Valid() && block != head && block != tail
      modifies this`length, this`items, block`prev, block`next, Nodes()`prev, Nodes()`next
      ensures Valid()
      ensures r == (if old(block.prev != null || block.next != null) then Err(AlreadyLinked) else Ok(()))
      ensures items == if r.Ok? then old(items) + [block] else old(items)
      ensures r.Err? ==> unchanged(block) && length == old(length)
    {
      if block.prev != null || block.next != null {
        return Err(AlreadyLinked);
      }
      NotInside(block);
      ghost var nodes := Nodes();
      ghost var n := |nodes|;
      assert nodes[n - 1] == tail && nodes[n - 2].next == nodes[n - 1];
      var last := tail.prev;
      assert last == nodes[n - 2];
      last.next := block;
      block.prev := last;
      block.next := tail;
      tail.prev := block;
      length := length + 1;
      items := items + [block];
      Spliced(nodes, n - 1, block, Nodes());
      return Ok(());
    }

    /** Park a block at the front. */
    method AppendLeft(block: Block) returns (r: Result<(), QueueError>)
      requires Valid() && block != head && block != tail
      modifies this`length, this`items, block`prev, block`next, Nodes()`prev, Nodes()`next
      ensures Valid()
      ensures r == (if old(block.prev != null || block.next != null) then Err(AlreadyLinked) else Ok(()))
      ensures items == if r.Ok? then [block] + old(items) else old(items)
      ensures r.Err? ==> unchanged(block) && length == old(length)
    {
      if block.prev != null || block.next != null {
        return Err(AlreadyLinked);
      }
      NotInside(block);
      ghost var nodes := Nodes();
      assert nodes[0] == head && nodes[0].next == nodes[1];
      var first := head.next;
      assert first == nodes[1];
      first.prev := block;
      block.next := first;
      block.prev := head;
      head.next := block;
      length := length + 1;
      items := [block] + items;
      Spliced(nodes, 1, block, Nodes());
      return Ok(());
    }

    /** Take the front block out. */
    method PopLeft() returns (r: Result<Block, QueueError>)
      requires Valid()
      modifies this`length, this`items, Nodes()`prev, Nodes()`next
      ensures Valid()
      ensures r == (if old(items) == [] then Err(Empty) else Ok(old(items)[0]))
      ensures items == if r.Ok? then old(items)[1..] else old(items)
      ensures r.Ok? ==> r.value.prev == null && r.value.next == null
    {
      assert Nodes()[0].next == Nodes()[1] && (|items| > 0 ==> Nodes()[1] != Nodes()[|items| + 1]);
      var block := head.next;
      if block == tail {
        return Err(Empty);
      }
      assert items != [] && block == items[0] && block != null;
      Unlink(block, 0);
      assert old(items)[..0] + old(items)[1..] == old(items)[1..];
      return Ok(block);
    }

    /** Take any block out, wherever it is (`i` says where, for the proof only). */
    method Remove(block: Block, ghost i: nat) returns (r: Result<(), QueueError>)
      requires Valid() && block != head && block != tail
      requires block in items ==> i < |items| && items[i] == block
      requires block !in items ==> block.prev == null || block.next == null
      modifies this`length, this`items, Nodes()`prev, Nodes()`next
      ensures Valid()
      ensures r == (if block in old(items) then Ok(()) else Err(NotLinked))
      ensures r.Ok? ==> i < |old(items)|
      ensures items == if r.Ok? then old(items)[..i] + old(items)[i + 1..] else old(items)
      ensures r.Ok? ==> block.prev == null && block.next == null
    {
      if block.prev == null || block.next == null {
        if block in items {
          Inside(i);
        }
        return Err(NotLinked);
      }
      Unlink(block, i);
      return Ok(());
    }

    method Unlink(block: Block, ghost i: nat)
      requires Valid() && i < |items| && items[i] == block
      modifies this`length, this`items, Nodes()`prev, Nodes()`next
      ensures Valid() && items == old(items)[..i] + old(items)[i + 1..]
      ensures block.prev == null && block.next == null
    {
      ghost var nodes := Nodes();
      Inside(i);
      assert nodes[i + 1] == block;
      block.prev.next := block.next;
      block.next.prev := block.prev;
      block.prev := null;
      block.next := null;
      length := length - 1;
      items := items[..i] + items[i + 1..];
      assert Nodes() == nodes[..i + 1] + nodes[i + 2..];
      Cut(nodes, i + 1, Nodes());
    }

    lemma NotInside(block: Block)
      requires Valid() && block.prev == null && block.next == null && block != head && block != tail
      ensures block !in Nodes()
    {
      if block in items {
        var i :| 0 <= i < |items| && items[i] == block;
        Inside(i);
      }
    }
  }

  lemma Spliced(nodes: seq<Block>, k: nat, block: Block, longer: seq<Block>)
    requires 0 < k < |nodes| && longer == nodes[..k] + [block] + nodes[k..]
    requires block !in nodes && forall i, j | 0 <= i < j < |nodes| :: nodes[i] != nodes[j]
    requires nodes[0].prev == null && nodes[|nodes| - 1].next == null
    requires forall i | 0 <= i < |nodes| - 1 && i != k - 1 ::
               nodes[i].next == nodes[i + 1] && nodes[i + 1].prev == nodes[i]
    requires nodes[k - 1].next == block && block.prev == nodes[k - 1] && block.next == nodes[k]
    requires nodes[k].prev == block
    ensures Chain(longer)
  {
    forall i | 0 <= i < |longer| - 1 ensures longer[i].next == longer[i + 1] && longer[i + 1].prev == longer[i] {
      if i < k - 1 {
        assert longer[i] == nodes[i] && longer[i + 1] == nodes[i + 1];
      } else if i == k - 1 {
        assert longer[i] == nodes[i] && longer[i + 1] == block;
      } else if i == k {
        assert longer[i] == block && longer[i + 1] == nodes[k];
      } else {
        assert longer[i] == nodes[i - 1] && longer[i + 1] == nodes[i];
      }
    }
    forall i, j | 0 <= i < j < |longer| ensures longer[i] != longer[j] {
      assert longer[i] == if i < k then nodes[i] else if i == k then block else nodes[i - 1];
      assert longer[j] == if j < k then nodes[j] else if j == k then block else nodes[j - 1];
    }
  }

  lemma Cut(nodes: seq<Block>, k: nat, shorter: seq<Block>)
    requires 0 < k < |nodes| - 1 && shorter == nodes[..k] + nodes[k + 1..]
    requires forall i, j | 0 <= i < j < |nodes| :: nodes[i] != nodes[j]
    requires nodes[0].prev == null && nodes[|nodes| - 1].next == null
    requires forall i | 0 <= i < |nodes| - 1 && i != k - 1 && i != k ::
               nodes[i].next == nodes[i + 1] && nodes[i + 1].prev == nodes[i]
    requires nodes[k - 1].next == nodes[k + 1] && nodes[k + 1].prev == nodes[k - 1]
    ensures Chain(shorter)
  {
    forall i | 0 <= i < |shorter| - 1 ensures shorter[i].next == shorter[i + 1] && shorter[i + 1].prev == shorter[i] {
      if i < k - 1 {
        assert shorter[i] == nodes[i] && shorter[i + 1] == nodes[i + 1];
      } else if i == k - 1 {
        assert shorter[i] == nodes[i] && shorter[i + 1] == nodes[k + 1];
      } else {
        assert shorter[i] == nodes[i + 1] && shorter[i + 1] == nodes[i + 2];
      }
    }
    forall i, j | 0 <= i < j < |shorter| ensures shorter[i] != shorter[j] {
      assert shorter[i] == if i < k then nodes[i] else nodes[i + 1];
      assert shorter[j] == if j < k then nodes[j] else nodes[j + 1];
    }
  }
}
