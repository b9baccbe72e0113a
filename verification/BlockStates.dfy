/**
  What the block pool's operations do, as functions of its abstract state: the free queue
  front first, and per block a reference count and a published hash.
 */
module BlockStates {
  import opened Outcomes
  import opened Runners

  datatype Pool = Pool(free: seq<nat>, refs: seq<nat>, hashes: seq<Option<nat>>, index: map<nat, nat>)

  /** Blocks below `reserved` are never handed out; a block is queued iff nobody refers to it. */
  ghost predicate Tidy(p: Pool, reserved: nat) {
    && reserved <= |p.refs| == |p.hashes| && Distinct(p.free)
    && (forall i | 0 <= i < |p.free| :: reserved <= p.free[i] < |p.refs|)
    && (forall b | 0 <= b < |p.refs| :: b in p.free <==> reserved <= b && p.refs[b] == 0)
    && (forall b | 0 <= b < reserved :: p.refs[b] == 0 && p.hashes[b] == None)
    && (forall h | h in p.index :: p.index[h] < |p.refs|)
  }

  function Initial(numBlocks: nat, reserved: nat): (p: Pool)
    requires reserved <= numBlocks
    ensures |p.free| == numBlocks - reserved && |p.refs| == |p.hashes| == numBlocks
    ensures forall i | 0 <= i < |p.free| :: p.free[i] == reserved + i
  {
    Pool(seq(numBlocks - reserved, i => reserved + i), seq(numBlocks, _ => 0), seq(numBlocks, _ => None), map[])
  }

  lemma InitialIsTidy(numBlocks: nat, reserved: nat)
    requires reserved <= numBlocks
    ensures Tidy(Initial(numBlocks, reserved), reserved)
  {
    var p := Initial(numBlocks, reserved);
    forall b | 0 <= b < numBlocks ensures b in p.free <==> reserved <= b {
      assert b >= reserved ==> p.free[b - reserved] == b;
    }
  }

  /** The index and the published hashes say the same. */
  ghost predicate IndexTrue(p: Pool) {
    && |p.refs| == |p.hashes|
    && (forall h | h in p.index :: p.index[h] < |p.hashes| && p.hashes[p.index[h]] == Some(h))
    && (forall b | 0 <= b < |p.hashes| && p.hashes[b].Some? ::
          p.hashes[b].value in p.index && p.index[p.hashes[b].value] == b)
  }

  lemma InitialIndex(numBlocks: nat, reserved: nat)
    requires reserved <= numBlocks
    ensures IndexTrue(Initial(numBlocks, reserved))
  {
  }

  /** Take the front block, forgetting what it was published as. */
  function TakeOne(p: Pool): Pool
    requires p.free != [] && p.free[0] < |p.refs| == |p.hashes|
  {
    var b := p.free[0];
    Pool(p.free[1..], p.refs[b := 1], p.hashes[b := None],
         if p.hashes[b].Some? then p.index - {p.hashes[b].value} else p.index)
  }

  ghost predicate Shaped(p: Pool) {
    |p.refs| == |p.hashes| && forall i | 0 <= i < |p.free| :: p.free[i] < |p.refs|
  }

  function Taken(p: Pool, n: nat): (q: Pool)
    requires n <= |p.free| && Shaped(p)
    ensures q.free == p.free[n..] && |q.refs| == |p.refs| == |q.hashes|
  {
    if n == 0 then p else TakeOne(Taken(p, n - 1))
  }

  /** Drop one reference; at zero a published block queues at the back, any other at the
      front. */
  function FreeOne(p: Pool, b: nat): Pool
    requires b < |p.refs| == |p.hashes| && p.refs[b] > 0
  {
    var q := p.(refs := p.refs[b := p.refs[b] - 1]);
    if p.refs[b] > 1 then q
    else if p.hashes[b].Some? then q.(free := p.free + [b])
    else q.(free := [b] + p.free)
  }

  function Publish(p: Pool, b: nat, h: nat): Pool
    requires b < |p.hashes|
  {
    if h in p.index then p else p.(hashes := p.hashes[b := Some(h)], index := p.index[h := b])
  }

  /** One more reference, reviving a queued block. */
  function Touch(p: Pool, b: nat): Pool
    requires b < |p.refs|
  {
    p.(refs := p.refs[b := p.refs[b] + 1], free := if p.refs[b] == 0 then Without(p.free, b) else p.free)
  }

  function Without(s: seq<nat>, b: nat): (t: seq<nat>)
    ensures forall x :: x in t <==> x in s && x != b
    ensures |t| <= |s|
  {
    if s == [] then []
    else if s[|s| - 1] == b then Without(s[..|s| - 1], b)
    else Without(s[..|s| - 1], b) + [s[|s| - 1]]
  }

  // ---------------------------------------------------------------------------
  // Every operation keeps the pool tidy.
  // ---------------------------------------------------------------------------

  lemma TakeKeepsTidy(p: Pool, reserved: nat)
    requires Tidy(p, reserved) && p.free != []
    ensures Tidy(TakeOne(p), reserved)
  {
    var q, b := TakeOne(p), p.free[0];
    assert p.free == [b] + p.free[1..];
    assert b !in p.free[1..];
  }

  lemma OneMoreDistinct(s: seq<nat>, b: nat)
    requires Distinct(s) && b !in s
    ensures Distinct(s + [b]) && Distinct([b] + s)
    ensures forall x :: (x in s + [b] <==> x in s || x == b) && (x in [b] + s <==> x in s || x == b)
  {
  }

  lemma FreeKeepsTidy(p: Pool, reserved: nat, b: nat)
    requires Tidy(p, reserved) && b < |p.refs| && p.refs[b] > 0
    ensures Tidy(FreeOne(p, b), reserved)
  {
    var q := FreeOne(p, b);
    hide Distinct;
    if p.refs[b] == 1 {
      OneMoreDistinct(p.free, b);
    }
    assert forall i | 0 <= i < |q.free| :: q.free[i] == b || q.free[i] in p.free;
  }

  lemma {:induction false} WithoutDistinct(s: seq<nat>, b: nat)
    requires Distinct(s)
    ensures Distinct(Without(s, b))
  {
    if s != [] {
      var front := s[..|s| - 1];
      WithoutDistinct(front, b);
      assert forall i | 0 <= i < |Without(front, b)| :: Without(front, b)[i] in front;
    }
  }

  lemma TouchKeepsTidy(p: Pool, reserved: nat, b: nat)
    requires Tidy(p, reserved) && reserved <= b < |p.refs|
    ensures Tidy(Touch(p, b), reserved)
  {
    WithoutDistinct(p.free, b);
    var t := Without(p.free, b);
    assert forall i | 0 <= i < |t| :: t[i] in p.free;
  }

  lemma PublishKeepsTidy(p: Pool, reserved: nat, b: nat, h: nat)
    requires Tidy(p, reserved) && reserved <= b < |p.refs|
    ensures Tidy(Publish(p, b, h), reserved)
  {
  }

  lemma {:induction false} WithoutAt(s: seq<nat>, b: nat, j: nat)
    requires Distinct(s) && j < |s| && s[j] == b
    ensures Without(s, b) == s[..j] + s[j + 1..]
  {
    var front := s[..|s| - 1];
    if j == |s| - 1 {
      WithoutAbsent(front, b);
    } else {
      WithoutAt(front, b, j);
      assert front[..j] + front[j + 1..] + [s[|s| - 1]] == s[..j] + s[j + 1..];
    }
  }

  lemma {:induction false} WithoutAbsent(s: seq<nat>, b: nat)
    requires b !in s
    ensures Without(s, b) == s
  {
    if s != [] {
      WithoutAbsent(s[..|s| - 1], b);
    }
  }

  lemma FreeOneParts(p: Pool, b: nat)
    requires b < |p.refs| == |p.hashes| && p.refs[b] > 0
    ensures var q := FreeOne(p, b);
            && q.refs == p.refs[b := p.refs[b] - 1] && q.hashes == p.hashes && q.index == p.index
            && q.free == if p.refs[b] > 1 then p.free else if p.hashes[b].Some? then p.free + [b] else [b] + p.free
  {
  }

  lemma TouchParts(p: Pool, b: nat)
    requires b < |p.refs|
    ensures var q := Touch(p, b);
            && q.refs == p.refs[b := p.refs[b] + 1] && q.hashes == p.hashes && q.index == p.index
            && q.free == if p.refs[b] == 0 then Without(p.free, b) else p.free
  {
  }

  /** A reference added and given up again: every count is as it was, and so is the queue unless
      the block was queued, in which case it has moved to one of the ends. */
  lemma TouchThenFree(p: Pool, reserved: nat, b: nat)
    requires Tidy(p, reserved) && reserved <= b < |p.refs|
    ensures var q := FreeOne(Touch(p, b), b);
            && q.refs == p.refs && q.hashes == p.hashes && q.index == p.index
            && (p.refs[b] > 0 ==> q == p)
            && (p.refs[b] == 0 ==>
                  exists i | 0 <= i < |p.free| && p.free[i] == b ::
                    var rest := p.free[..i] + p.free[i + 1..];
                    q.free == if p.hashes[b] == None then [b] + rest else rest + [b])
  {
    hide Without, Touch, FreeOne;
    TouchParts(p, b);
    FreeOneParts(Touch(p, b), b);
    assert p.refs[b := p.refs[b] + 1][b := p.refs[b]] == p.refs;
    if p.refs[b] == 0 {
      assert b in p.free;
      var i :| 0 <= i < |p.free| && p.free[i] == b;
      WithoutAt(p.free, b, i);
    }
  }

  // ---------------------------------------------------------------------------
  // The content index.
  // ---------------------------------------------------------------------------

  /** A block handed out is no longer indexed as its old content. */
  lemma TakeKeepsIndex(p: Pool)
    requires IndexTrue(p) && p.free != [] && p.free[0] < |p.refs|
    ensures IndexTrue(TakeOne(p)) && forall h | h in TakeOne(p).index :: TakeOne(p).index[h] != p.free[0]
  {
  }

  lemma FreeKeepsIndex(p: Pool, b: nat)
    requires IndexTrue(p) && b < |p.refs| && p.refs[b] > 0
    ensures IndexTrue(FreeOne(p, b))
  {
  }

  lemma TouchKeepsIndex(p: Pool, b: nat)
    requires IndexTrue(p) && b < |p.refs|
    ensures IndexTrue(Touch(p, b))
  {
  }

  /** Publishing keeps the index true exactly when the hash was known already or the block had
      none: publishing a second hash for a block strands the first. */
  lemma PublishKeepsIndexIff(p: Pool, b: nat, h: nat)
    requires IndexTrue(p) && b < |p.hashes|
    ensures IndexTrue(Publish(p, b, h)) <==> h in p.index || p.hashes[b] == None
  {
    var q := Publish(p, b, h);
    if h !in p.index && p.hashes[b].Some? {
      var g := p.hashes[b].value;
      assert g in q.index && q.index[g] == b && q.hashes[b] == Some(h);
    }
  }

  // ---------------------------------------------------------------------------
  // Allocate and free again.
  // ---------------------------------------------------------------------------

  function FreeAll(p: Pool, ids: seq<nat>): (q: Pool)
    requires Freeable(p, ids)
    ensures |q.refs| == |p.refs| && q.hashes == p.hashes && q.index == p.index
    decreases |ids|
  {
    if ids == [] then p else FreeAll(FreeOne(p, ids[0]), ids[1..])
  }

  /** Every block listed has one reference for this caller to give up. */
  predicate Freeable(p: Pool, ids: seq<nat>)
    decreases |ids|
  {
    ids == [] || (ids[0] < |p.refs| == |p.hashes| && p.refs[ids[0]] > 0 && Freeable(FreeOne(p, ids[0]), ids[1..]))
  }

  function Reversed(s: seq<nat>): (r: seq<nat>)
    ensures |r| == |s| && forall i | 0 <= i < |s| :: r[i] == s[|s| - 1 - i]
  {
    if s == [] then [] else [s[|s| - 1]] + Reversed(s[..|s| - 1])
  }

  /** Blocks just taken are held once and carry no hash. */
  lemma {:induction false} TakenBlocks(p: Pool, n: nat)
    requires n <= |p.free| && Shaped(p) && Distinct(p.free)
    ensures var q := Taken(p, n);
            && (forall i | 0 <= i < n :: q.refs[p.free[i]] == 1 && q.hashes[p.free[i]] == None)
            && (forall b | 0 <= b < |p.refs| && b !in p.free[..n] ::
                  q.refs[b] == p.refs[b] && q.hashes[b] == p.hashes[b])
  {
    if n > 0 {
      TakenBlocks(p, n - 1);
      assert p.free[..n] == p.free[..n - 1] + [p.free[n - 1]];
    }
  }

  lemma FreeHead(p: Pool, b: nat, rest: seq<nat>)
    requires b < |p.refs| == |p.hashes| && p.refs[b] > 0 && Freeable(FreeOne(p, b), rest)
    ensures Freeable(p, [b] + rest) && FreeAll(p, [b] + rest) == FreeAll(FreeOne(p, b), rest)
  {
    assert ([b] + rest)[1..] == rest;
  }

  /** The last reference to an unpublished block puts it in front. */
  lemma FreeInFront(p: Pool, b: nat)
    requires b < |p.refs| == |p.hashes| && p.refs[b] == 1 && p.hashes[b] == None
    ensures FreeOne(p, b) == p.(refs := p.refs[b := 0], free := [b] + p.free)
  {
  }

  lemma ReversedSnoc(front: seq<nat>, b: nat)
    ensures Reversed(front + [b]) == [b] + Reversed(front)
  {
    assert (front + [b])[..|front|] == front;
  }

  /** Freeing taken, unpublished blocks last-to-first stacks them back in front, in order. */
  lemma {:induction false} StackBack(p: Pool, ids: seq<nat>)
    requires |p.refs| == |p.hashes| && Distinct(ids)
    requires forall i | 0 <= i < |ids| :: ids[i] < |p.refs| && p.refs[ids[i]] == 1 && p.hashes[ids[i]] == None
    ensures Freeable(p, Reversed(ids)) && FreeAll(p, Reversed(ids)).free == ids + p.free
    ensures var q := FreeAll(p, Reversed(ids));
            forall b | 0 <= b < |p.refs| :: q.refs[b] == if b in ids then 0 else p.refs[b]
    decreases |ids|
  {
    hide FreeOne, Freeable, FreeAll, Reversed;
    if ids == [] {
      StackNothing(p);
      assert [] + p.free == p.free;
    } else {
      var b, front := ids[|ids| - 1], ids[..|ids| - 1];
      assert ids == front + [b] && b !in front;
      FreeInFront(p, b);
      StackBack(FreeOne(p, b), front);
      ReversedSnoc(front, b);
      FreeHead(p, b, Reversed(front));
      assert front + ([b] + p.free) == ids + p.free;
    }
  }

  lemma StackNothing(p: Pool)
    ensures Freeable(p, Reversed([])) && FreeAll(p, Reversed([])) == p
  {
  }

  /** Unpublished blocks are taken without touching the index. */
  lemma {:induction false} TakenIndex(p: Pool, n: nat)
    requires n <= |p.free| && Shaped(p) && Distinct(p.free)
    requires forall i | 0 <= i < n :: p.hashes[p.free[i]] == None
    ensures Taken(p, n).index == p.index && Taken(p, n).hashes == p.hashes
  {
    if n > 0 {
      TakenIndex(p, n - 1);
    }
  }

  function Churned(p: Pool, n: nat): Pool
    requires n <= |p.free| && Shaped(p) && Freeable(Taken(p, n), Reversed(p.free[..n]))
  {
    FreeAll(Taken(p, n), Reversed(p.free[..n]))
  }

  lemma TidyMeans(p: Pool, reserved: nat)
    requires Tidy(p, reserved)
    ensures Shaped(p) && Distinct(p.free)
    ensures forall i | 0 <= i < |p.free| :: p.refs[p.free[i]] == 0
  {
    forall i | 0 <= i < |p.free| ensures p.refs[p.free[i]] == 0 {
      assert p.free[i] in p.free;
    }
  }

  /** Serving a request and releasing its slot leaves the queue as it was: the front blocks go
      out in order and come back to the front in order.  If none of them was published the
      whole pool is as it was. */
  lemma ChurnIsIdentity(p: Pool, reserved: nat, n: nat)
    requires Tidy(p, reserved) && n <= |p.free|
    ensures Shaped(p) && Freeable(Taken(p, n), Reversed(p.free[..n]))
    ensures Churned(p, n).free == p.free && Churned(p, n).refs == p.refs
    ensures (forall i | 0 <= i < n :: p.hashes[p.free[i]] == None) ==> Churned(p, n) == p
  {
    hide Taken, FreeAll, Freeable, Reversed, Tidy;
    TidyMeans(p, reserved);
    TakenBlocks(p, n);
    var q, ids := Taken(p, n), p.free[..n];
    StackBack(q, ids);
    assert ids + q.free == p.free;
    var done := FreeAll(q, Reversed(ids));
    forall b | 0 <= b < |p.refs| ensures done.refs[b] == p.refs[b] {
      if b in ids {
        var i :| 0 <= i < n && p.free[i] == b;
      }
    }
    assert done.refs == p.refs;
    if forall i | 0 <= i < n :: p.hashes[p.free[i]] == None {
      TakenIndex(p, n);
    }
  }

  // ---------------------------------------------------------------------------
  // Contiguity.
  // ---------------------------------------------------------------------------

  predicate Contiguous(ids: seq<nat>) {
    forall i | 0 <= i < |ids| - 1 :: ids[i + 1] == ids[i] + 1
  }

  /** A queue whose released blocks went to the back instead: one block per step moves round. */
  function Rotated(q: seq<nat>, steps: nat): (r: seq<nat>)
    ensures |r| == |q|
  {
    if steps == 0 || q == [] then q else var r := Rotated(q, steps - 1); r[1..] + [r[0]]
  }

  lemma {:induction false} RotatedAt(q: seq<nat>, steps: nat)
    requires q != []
    ensures var m := steps % |q|; Rotated(q, steps) == q[m..] + q[..m]
  {
    if steps > 0 {
      RotatedAt(q, steps - 1);
      RemStep(steps, |q|);
      var m, k := (steps - 1) % |q|, steps % |q|;
      var r := q[m..] + q[..m];
      if m + 1 < |q| {
        assert k == m + 1;
        assert r[0] == q[m] && r[1..] == q[m + 1..] + q[..m];
        assert q[..m] + [q[m]] == q[..m + 1];
      } else {
        assert k == 0;
        assert r[0] == q[m] && r[1..] + [r[0]] == q[..m] + [q[m]] == q;
      }
    }
  }

  lemma AtLeast(x: int, n: int)
    requires x >= 1 && n > 0
    ensures x * n >= n
  {
  }

  lemma Distribute(e: int, d: int, n: int)
    ensures (e - d) * n == e * n - d * n
  {
  }

  lemma Remainder(n: int, d: int, m: int, e: int, r: int)
    requires 0 <= m < n && 0 <= r < n && d * n + m == e * n + r
    ensures m == r
  {
    Distribute(e, d, n);
    Distribute(d, e, n);
    if e > d {
      AtLeast(e - d, n);
    } else if e < d {
      AtLeast(d - e, n);
    }
  }

  lemma RemStep(a: nat, n: nat)
    requires a > 0 && n > 0
    ensures a % n == if (a - 1) % n + 1 == n then 0 else (a - 1) % n + 1
  {
    var d, m, e, r := (a - 1) / n, (a - 1) % n, a / n, a % n;
    assert a - 1 == d * n + m && a == e * n + r;
    if m + 1 == n {
      Distribute(d + 1, d, n);
      assert a == (d + 1) * n + 0;
      Remainder(n, d + 1, 0, e, r);
    } else {
      Remainder(n, d, m + 1, e, r);
    }
  }

  /** Two stretches put together are contiguous iff each is and they meet. */
  lemma ContiguousJoin(a: seq<nat>, b: seq<nat>)
    requires a != [] && b != []
    ensures Contiguous(a + b) <==> Contiguous(a) && Contiguous(b) && b[0] == a[|a| - 1] + 1
  {
    var s, n := a + b, |a|;
    if Contiguous(s) {
      forall i | 0 <= i < n - 1 ensures a[i + 1] == a[i] + 1 {
        assert s[i + 1] == s[i] + 1;
      }
      forall i | 0 <= i < |b| - 1 ensures b[i + 1] == b[i] + 1 {
        assert s[n + i + 1] == s[n + i] + 1;
      }
      assert s[n - 1 + 1] == s[n - 1] + 1;
    }
    if Contiguous(a) && Contiguous(b) && b[0] == a[n - 1] + 1 {
      forall i | 0 <= i < |s| - 1 ensures s[i + 1] == s[i] + 1 {
        if i < n - 1 {
          assert a[i + 1] == a[i] + 1;
        } else if i > n - 1 {
          assert b[i - n + 1] == b[i - n] + 1;
        }
      }
    }
  }

  /** What the recipe was designed around, for any working set: with release to the back the
      next `need` blocks are a stretch of the queue until the rotation carries them across the
      wrap, and from then on they are contiguous only if the last and the first block are
      neighbours. */
  lemma RotationFragmentsIff(q: seq<nat>, steps: nat, need: nat)
    requires 1 <= need <= |q|
    ensures var m, w := steps % |q|, |q|;
            Contiguous(Rotated(q, steps)[..need]) <==>
            if m + need <= w then Contiguous(q[m..m + need])
            else Contiguous(q[m..]) && Contiguous(q[..m + need - w]) && q[0] == q[w - 1] + 1
  {
    hide Rotated, Contiguous;
    RotatedAt(q, steps);
    var m, w := steps % |q|, |q|;
    if m + need <= w {
      assert Rotated(q, steps)[..need] == q[m..m + need];
    } else {
      assert Rotated(q, steps)[..need] == q[m..] + q[..m + need - w];
      ContiguousJoin(q[m..], q[..m + need - w]);
    }
  }

  lemma StretchIsContiguous(q: seq<nat>, lo: nat, hi: nat)
    requires Contiguous(q) && lo <= hi <= |q|
    ensures Contiguous(q[lo..hi])
  {
    var s := q[lo..hi];
    forall i | 0 <= i < |s| - 1 ensures s[i + 1] == s[i] + 1 {
      assert s[i] == q[lo + i] && s[i + 1] == q[lo + i + 1];
    }
  }

  /** In particular a consecutive working set fragments exactly at the wrap. */
  lemma ConsecutiveFragmentsIff(q: seq<nat>, steps: nat, need: nat)
    requires Contiguous(q) && 1 <= need <= |q|
    ensures Contiguous(Rotated(q, steps)[..need]) <==> steps % |q| + need <= |q|
  {
    hide Rotated;
    var m, w := steps % |q|, |q|;
    RotationFragmentsIff(q, steps, need);
    if m + need <= w {
      StretchIsContiguous(q, m, m + need);
    } else {
      Ascending(q, w - 1);
    }
  }

  /** The shipped recipe: three cycles over three slots with a margin of eight blocks.  Were
      blocks released to the back, every request of two blocks or more would be fragmented
      unless the working set's two ends happen to be neighbours. */
  lemma ShippedRotation(q: seq<nat>, need: nat)
    requires 2 <= need && |q| == need + 8 && q[0] != q[|q| - 1] + 1
    ensures !Contiguous(Rotated(q, 9)[..need])
  {
    hide Rotated, Contiguous;
    assert 9 % |q| == 9;
    RotationFragmentsIff(q, 9, need);
  }

  lemma {:induction false} Ascending(q: seq<nat>, i: nat)
    requires Contiguous(q) && i < |q|
    ensures q[i] == q[0] + i
  {
    if i > 0 {
      Ascending(q, i - 1);
      assert q[i - 1 + 1] == q[i - 1] + 1;
    }
  }

  // ---------------------------------------------------------------------------
  // The part of the queue nobody has reached yet.
  // ---------------------------------------------------------------------------

  /** The last `v` queued blocks are consecutive, as they were when the pool was made. */
  ghost predicate VirginTail(p: Pool, v: nat) {
    v <= |p.free| && Contiguous(p.free[|p.free| - v..])
  }

  lemma InitialTail(numBlocks: nat, reserved: nat)
    requires reserved <= numBlocks
    ensures VirginTail(Initial(numBlocks, reserved), numBlocks - reserved)
  {
    var free := Initial(numBlocks, reserved).free;
    assert free[0..] == free;
  }

  /** Taking blocks in front of the tail, or releasing unpublished ones, leaves it alone. */
  lemma TailSurvivesTake(p: Pool, n: nat, v: nat)
    requires Shaped(p) && VirginTail(p, v) && n + v <= |p.free|
    ensures VirginTail(Taken(p, n), v)
  {
    hide Taken, Contiguous;
    assert p.free[n..][|p.free| - n - v..] == p.free[|p.free| - v..];
  }

  lemma TailSurvivesFree(p: Pool, b: nat, v: nat)
    requires b < |p.refs| == |p.hashes| && p.refs[b] > 0 && p.hashes[b] == None && VirginTail(p, v)
    ensures VirginTail(FreeOne(p, b), v)
  {
    hide Contiguous;
    assert ([b] + p.free)[|p.free| + 1 - v..] == p.free[|p.free| - v..];
  }

  /** A working set inside the tail: whatever happened in front of it, the table is contiguous
      and stays so. */
  lemma VirginTailIsContiguous(p: Pool, v: nat, need: nat, margin: nat)
    requires VirginTail(p, v) && need + margin <= v
    ensures var held := |p.free| - (need + margin); Contiguous(p.free[held..held + need])
  {
    var tail, lo := p.free[|p.free| - v..], v - (need + margin);
    StretchIsContiguous(tail, lo, lo + need);
    assert tail[lo..lo + need] == p.free[|p.free| - (need + margin)..|p.free| - margin];
  }
}
