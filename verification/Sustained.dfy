/**
  The sustained driver: requests arrive by the clock, wait for a slot, and are served until
  admission closes and everything admitted has drained.

  Time is in milliseconds; `clock(n)` is what the n-th pass over the loop reads.
 */
module SustainedRuns {
  import opened AsyncArrivals
  import opened Ledgers
  import opened Network
  import opened Occupancies
  import opened Rosters
  import opened Runners
  import opened ServingCores
  import opened Slots

  const ROUND_CAP: nat := 20_000_000
  const VALVE_SLACK: nat := 1_800_000

  /** How the loop was left; `Looping` means the passes allowed ran out first. */
  datatype Exit = Drained | Valve | RoundCap | Looping

  /** Every production slot has its own reference slot. */
  ghost predicate Paired(active: seq<Active>, capacity: nat) {
    forall i | 0 <= i < |active| :: active[i].refSlot == capacity + active[i].slot
  }

  method Offset(slots: seq<nat>, base: nat) returns (moved: seq<nat>)
    ensures |moved| == |slots| && forall i | 0 <= i < |slots| :: moved[i] == base + slots[i]
  {
    moved := [];
    for i := 0 to |slots|
      invariant |moved| == i && forall j | 0 <= j < i :: moved[j] == base + slots[j]
    {
      moved := moved + [base + slots[i]];
    }
  }

  /** Offsets of free slots are spare. */
  lemma OffsetsSpare(free: seq<nat>, active: seq<Active>, rs: seq<nat>, ds: seq<nat>, capacity: nat, numSlots: nat)
    requires Partitioned(free, active, capacity) && Paired(active, capacity) && 3 * capacity <= numSlots
    requires forall i | 0 <= i < |active| :: active[i].slot < capacity
    requires |rs| == |ds| <= |free|
    requires forall i | 0 <= i < |rs| :: rs[i] == capacity + free[i] && ds[i] == 2 * capacity + free[i]
    ensures Spare(active, rs, ds, capacity, numSlots)
  {
    hide Partitioned;
    FreeIsApart(free, active, capacity);
  }

  lemma PairedJoined(active: seq<Active>, more: seq<Active>, ids: seq<nat>, rs: seq<nat>, reqs: seq<Request>,
        round: nat, capacity: nat)
    requires Paired(active, capacity) && Joined(active, more, ids, rs, reqs, round)
    requires forall i | 0 <= i < |ids| :: rs[i] == capacity + ids[i]
    ensures Paired(more, capacity)
  {
    forall j | 0 <= j < |more| ensures more[j].refSlot == capacity + more[j].slot {
      if j < |active| {
        assert more[j] == more[..|active|][j];
      } else {
        assert News(more[|active| + (j - |active|)], ids[j - |active|], rs[j - |active|], reqs[j - |active|], round);
      }
    }
  }

  lemma PairedStepped(active: seq<Active>, updated: seq<Active>, seen: seq<Sighting>, spec: nat, capacity: nat)
    requires Paired(active, capacity) && Stepped(active, updated, seen, spec)
    ensures Paired(Still(updated), capacity)
  {
    hide Still, Moved;
    var still := Still(updated);
    forall i | 0 <= i < |still| ensures still[i].refSlot == capacity + still[i].slot {
      assert still[i] in updated;
      var j :| 0 <= j < |updated| && updated[j] == still[i];
      SteppedAt(active, updated, seen, spec, j);
    }
  }

  lemma SlotsBelow(single: Net, batch: Net, spec: nat, slots: seq<Slot>, capacity: nat, active: seq<Active>)
    requires Sound(single, batch, spec, slots, capacity, active)
    ensures forall i | 0 <= i < |active| :: active[i].slot < capacity
  {
  }

  // ---------------------------------------------------------------------------
  // Arrival and admission.
  // ---------------------------------------------------------------------------

  /** Pull everything that has arrived, stopping at the first request that has not. */
  method PullArrived(pool: seq<Request>, next: nat, waiting: seq<Request>, elapsed: nat)
    returns (next': nat, waiting': seq<Request>)
    requires next <= |pool|
    ensures next <= next' <= |pool| && waiting' == waiting + pool[next..next']
    ensures forall i | next <= i < next' :: pool[i].arrival <= elapsed
    ensures next' < |pool| ==> pool[next'].arrival > elapsed
  {
    next', waiting' := next, waiting;
    assert waiting + pool[next..next] == waiting;
    while next' < |pool| && pool[next'].arrival <= elapsed
      invariant next <= next' <= |pool| && waiting' == waiting + pool[next..next']
      invariant forall i | next <= i < next' :: pool[i].arrival <= elapsed
    {
      OneMorePulled(pool, next, next', waiting);
      waiting', next' := waiting' + [pool[next']], next' + 1;
    }
  }

  lemma OneMorePulled(pool: seq<Request>, next: nat, next': nat, waiting: seq<Request>)
    requires next <= next' < |pool|
    ensures waiting + pool[next..next'] + [pool[next']] == waiting + pool[next..next' + 1]
  {
    assert pool[next..next' + 1] == pool[next..next'] + [pool[next']];
  }

  /** What a batch changes: it comes after everyone active, and its stays open in its own order;
      no earlier round is affected. */
  ghost predicate Came(was: seq<Active>, active: seq<Active>, before: seq<Stay>, entered: seq<Stay>,
        finished: seq<Finished>, reqs: seq<Request>, round: nat)
  {
    && |was| <= |active| && active[..|was|] == was && (forall i | |was| <= i < |active| :: active[i].admitted == round)
    && |entered| == |before| + |reqs| && entered[..|before|] == before && Opens(entered[|before|..], reqs, round)
    && forall r: nat | r < round :: Present(active, finished, r) == Present(was, finished, r)
  }

  lemma CameFresh(was: seq<Active>, active: seq<Active>, before: seq<Stay>, entered: seq<Stay>, finished: seq<Finished>,
        reqs: seq<Request>, round: nat)
    requires Came(was, active, before, entered, finished, reqs, round) && was == []
    ensures forall i | 0 <= i < |active| :: active[i].admitted == round
  {
  }

  lemma {:induction false} JoinedCame(was: seq<Active>, active: seq<Active>, ids: seq<nat>, refs: seq<nat>,
        reqs: seq<Request>, round: nat)
    requires Joined(was, active, ids, refs, reqs, round)
    ensures |was| <= |active| && active[..|was|] == was
    ensures forall i | |was| <= i < |active| :: active[i].admitted == round
  {
    NewcomersAdmitted(was, active, ids, refs, reqs, round);
  }

  /** Admit as many of the waiting as there are free slots, first come first served. */
  method AdmitWaiting(c: ServingCore, waiting: seq<Request>) returns (admit: seq<Request>, rest: seq<Request>)
    requires c.Valid() && Paired(c.active, c.capacity) && 3 * c.capacity <= |c.b.r.slots|
    requires forall i | 0 <= i < |waiting| :: |waiting[i].prompt| >= 2
    modifies c, c.b.r
    ensures c.Valid() && Paired(c.active, c.capacity) && |c.b.r.slots| == old(|c.b.r.slots|)
    ensures admit + rest == waiting && RequestsOf(c.active) == RequestsOf(old(c.active)) + admit
    ensures Work(c.active) == Work(old(c.active)) + NeedOf(admit)
    ensures c.free == [] || rest == []
    ensures c.finished == old(c.finished) && c.log == old(c.log) && c.round == old(c.round)
    ensures c.correct == (old(c.correct) && AllFirstOk(c.b.r.single, c.b.r.batch, admit))
    ensures Came(old(c.active), c.active, old(c.entered), c.entered, c.finished, admit, c.round)
  {
    hide RequestsOf, Work, NeedOf, Sound, AllServed, LogIsTrue, Partitioned, Spare, Joined, Runner.Valid, Told,
         FirstOk, Attended, EntryBook, Present;
    var n := if |c.free| < |waiting| then |c.free| else |waiting|;
    admit, rest := waiting[..n], waiting[n..];
    assert waiting == admit + rest;
    if n > 0 {
      SlotsBelow(c.b.r.single, c.b.r.batch, c.b.r.spec, c.b.r.slots, c.capacity, c.active);
      var ids := c.free[..n];
      var rs := Offset(ids, c.capacity);
      var ds := Offset(ids, 2 * c.capacity);
      OffsetsSpare(c.free, c.active, rs, ds, c.capacity, |c.b.r.slots|);
      label before:
      CleanWhenLong(c.b.r.slots, ids, admit);
      c.Admit(admit, rs, ds);
      PairedJoined(old@before(c.active), c.active, ids, rs, admit, c.round, c.capacity);
      JoinedCame(old@before(c.active), c.active, ids, rs, admit, c.round);
    } else {
      NeedNothing();
      assert RequestsOf(c.active) + [] == RequestsOf(c.active);
    }
  }

  // ---------------------------------------------------------------------------
  // The loop.
  // ---------------------------------------------------------------------------

  /** Everything pulled is admitted or waiting, in pool order; everything admitted is active or
      finished. */
  ghost predicate PoolBooks(active: seq<Active>, finished: seq<Finished>, pool: seq<Request>, count: nat,
        waiting: seq<Request>, next: nat)
  {
    && count + |waiting| == next <= |pool| && waiting == pool[count..next]
    && multiset(RequestsOf(active)) + multiset(DoneOf(finished)) == multiset(pool[..count])
  }

  lemma PoolPulled(active: seq<Active>, finished: seq<Finished>, pool: seq<Request>, count: nat, waiting: seq<Request>,
        next: nat, next': nat)
    requires PoolBooks(active, finished, pool, count, waiting, next) && next <= next' <= |pool|
    ensures PoolBooks(active, finished, pool, count, waiting + pool[next..next'], next')
    ensures NeedOf(waiting + pool[next..next']) + NeedOf(pool[next'..]) == NeedOf(waiting) + NeedOf(pool[next..])
  {
    hide RequestsOf, DoneOf, NeedOf;
    assert pool[count..next'] == pool[count..next] + pool[next..next'];
    assert pool[next..] == pool[next..next'] + pool[next'..];
    NeedAppend(waiting, pool[next..next']);
    NeedAppend(pool[next..next'], pool[next'..]);
  }

  lemma PoolAdmitted(active: seq<Active>, more: seq<Active>, finished: seq<Finished>, pool: seq<Request>, count: nat,
        waiting: seq<Request>, next: nat, admit: seq<Request>, rest: seq<Request>)
    requires PoolBooks(active, finished, pool, count, waiting, next) && admit + rest == waiting
    requires RequestsOf(more) == RequestsOf(active) + admit
    ensures PoolBooks(more, finished, pool, count + |admit|, rest, next)
    ensures NeedOf(waiting) == NeedOf(admit) + NeedOf(rest)
    ensures count + |admit| <= |pool| && pool[..count + |admit|] == pool[..count] + admit
    ensures pool[count..count + |admit|] == admit
  {
    hide RequestsOf, DoneOf, NeedOf;
    PoolSplit(pool, count, |admit|, next, waiting, admit, rest);
    NeedAppend(admit, rest);
    assert multiset(RequestsOf(more)) == multiset(RequestsOf(active)) + multiset(admit);
  }

  lemma PoolSplit(pool: seq<Request>, count: nat, m: nat, next: nat, waiting: seq<Request>, admit: seq<Request>,
        rest: seq<Request>)
    requires count + |waiting| == next <= |pool| && waiting == pool[count..next] && admit + rest == waiting
    requires m == |admit|
    ensures multiset(pool[..count + m]) == multiset(pool[..count]) + multiset(admit) && rest == pool[count + m..next]
    ensures pool[..count + m] == pool[..count] + admit
  {
    assert admit == waiting[..m] && rest == waiting[m..];
    assert pool[..count + m] == pool[..count] + admit;
  }

  lemma PoolMeans(active: seq<Active>, finished: seq<Finished>, pool: seq<Request>, count: nat, waiting: seq<Request>,
        next: nat)
    requires PoolBooks(active, finished, pool, count, waiting, next)
    ensures count + |waiting| == next <= |pool|
    ensures multiset(RequestsOf(active)) + multiset(DoneOf(finished)) == multiset(pool[..count])
    ensures active == [] ==> multiset(DoneOf(finished)) == multiset(pool[..count])
    ensures forall i | 0 <= i < |waiting| :: waiting[i] in pool
  {
    hide DoneOf;
    assert forall i | 0 <= i < |waiting| :: waiting[i] == pool[count + i];
  }

  /** With nothing active, admission has emptied the queue. */
  lemma QueueEmptyWhenIdle(free: seq<nat>, rest: seq<Request>, capacity: nat)
    requires Partitioned(free, [], capacity) && capacity >= 1 && (free == [] || rest == [])
    ensures rest == []
  {
    IdleHasFree(free, capacity);
  }

  lemma CoreQueueEmpty(c: ServingCore, rest: seq<Request>)
    requires c.Valid() && c.active == [] && (c.free == [] || rest == [])
    ensures rest == []
  {
    hide Runner.Valid, Sound, AllServed, LogIsTrue, Partitioned, Told, Attended, EntryBook;
    QueueEmptyWhenIdle(c.free, rest, c.capacity);
  }

  // ---------------------------------------------------------------------------
  // Who had to wait, and when.
  // ---------------------------------------------------------------------------

  /** The requests up to the i-th had all arrived by a pass up to n before the driver closed. */
  ghost predicate DueAt(pool: seq<Request>, clock: nat -> nat, duration: nat, i: nat, n: nat)
    requires i < |pool|
  {
    exists m: nat | m <= n :: clock(m) < duration && forall j | 0 <= j <= i :: pool[j].arrival <= clock(m)
  }

  /** The i-th request had been admitted by round r. */
  ghost predicate AdmittedBy(entered: seq<Stay>, i: nat, r: nat) {
    i < |entered| && entered[i].admitted <= r
  }

  /** The pool enters in its own order. */
  ghost predicate InPoolOrder(entered: seq<Stay>, pool: seq<Request>, count: nat) {
    |entered| == count <= |pool| && forall i | 0 <= i < count :: entered[i].req == pool[i]
  }

  /** The passes that served the rounds, each later than the one before. */
  ghost predicate Passes(served: seq<nat>, n: nat) {
    && (forall r | 0 <= r < |served| :: served[r] < n)
    && forall r, t | 0 <= r < t < |served| :: served[r] < served[t]
  }

  /** In every round that a request already due was kept out of, every production slot was taken. */
  ghost predicate NoneKeptOut(entered: seq<Stay>, active: seq<Active>, finished: seq<Finished>, pool: seq<Request>,
        clock: nat -> nat, duration: nat, capacity: nat, served: seq<nat>)
  {
    forall r, i | 0 <= r < |served| && 0 <= i < |pool| :: DueAt(pool, clock, duration, i, served[r]) ==>
      AdmittedBy(entered, i, r) || Present(active, finished, r) == capacity
  }

  /** Somebody was in a slot both before and during round r. */
  ghost predicate CarriedInto(active: seq<Active>, finished: seq<Finished>, r: nat) {
    || (exists i | 0 <= i < |active| :: active[i].admitted < r)
    || (exists i | 0 <= i < |finished| :: finished[i].admitted < r <= finished[i].round)
  }

  /** No pass goes by without a round while anybody is being served. */
  ghost predicate Steady(active: seq<Active>, finished: seq<Finished>, served: seq<nat>) {
    forall r | 0 < r < |served| && CarriedInto(active, finished, r) :: served[r] == served[r - 1] + 1
  }

  /** The record of a run by pass n: who entered, and which pass served each round. */
  ghost predicate Timely(entered: seq<Stay>, active: seq<Active>, finished: seq<Finished>, pool: seq<Request>,
        clock: nat -> nat, duration: nat, capacity: nat, count: nat, served: seq<nat>, n: nat)
  {
    && InPoolOrder(entered, pool, count) && Passes(served, n) && Steady(active, finished, served)
    && NoneKeptOut(entered, active, finished, pool, clock, duration, capacity, served)
  }

  lemma {:induction false} TimelyStarts(pool: seq<Request>, clock: nat -> nat, duration: nat, capacity: nat)
    ensures Timely([], [], [], pool, clock, duration, capacity, 0, [], 0)
  {
  }

  lemma TimelyCount(entered: seq<Stay>, active: seq<Active>, finished: seq<Finished>, pool: seq<Request>,
        clock: nat -> nat, duration: nat, capacity: nat, count: nat, served: seq<nat>, n: nat)
    requires Timely(entered, active, finished, pool, clock, duration, capacity, count, served, n)
    ensures |entered| == count
  {
    hide NoneKeptOut, Steady, Passes;
  }

  lemma TimelyLater(entered: seq<Stay>, active: seq<Active>, finished: seq<Finished>, pool: seq<Request>,
        clock: nat -> nat, duration: nat, capacity: nat, count: nat, served: seq<nat>, n: nat, later: nat)
    requires Timely(entered, active, finished, pool, clock, duration, capacity, count, served, n) && n <= later
    ensures Timely(entered, active, finished, pool, clock, duration, capacity, count, served, later)
  {
    hide NoneKeptOut, Steady;
  }

  /** Admission keeps the record: newcomers were in no earlier round. */
  lemma {:induction false} TimelyCame(was: seq<Active>, active: seq<Active>, before: seq<Stay>, entered: seq<Stay>,
        finished: seq<Finished>, pool: seq<Request>, clock: nat -> nat, duration: nat, capacity: nat, count: nat,
        count': nat, served: seq<nat>, n: nat)
    requires Timely(before, was, finished, pool, clock, duration, capacity, count, served, n)
    requires count <= count' <= |pool|
    requires Came(was, active, before, entered, finished, pool[count..count'], |served|)
    ensures Timely(entered, active, finished, pool, clock, duration, capacity, count', served, n)
  {
    hide Present, DueAt;
    forall i | 0 <= i < count' ensures entered[i].req == pool[i] {
      if i < count {
        assert entered[i] == entered[..|before|][i];
      } else {
        assert entered[i] == entered[|before|..][i - count] && pool[count..count'][i - count] == pool[i];
      }
    }
    forall r, i | 0 <= r < |served| && 0 <= i < |pool| && DueAt(pool, clock, duration, i, served[r])
      ensures AdmittedBy(entered, i, r) || Present(active, finished, r) == capacity
    {
      if AdmittedBy(before, i, r) {
        assert entered[i] == entered[..|before|][i];
      }
    }
    forall r | 0 < r < |served| && CarriedInto(active, finished, r) ensures served[r] == served[r - 1] + 1 {
      if i :| 0 <= i < |active| && active[i].admitted < r {
        assert was[i] == active[..|was|][i];
      }
      assert CarriedInto(was, finished, r);
    }
  }

  /** Whatever was due by pass n has been pulled, hence admitted once nobody waits. */
  lemma DueIsPulled(pool: seq<Request>, clock: nat -> nat, duration: nat, n: nat, next: nat)
    requires Pulled(pool, clock, duration, n + 1, next)
    ensures forall i | 0 <= i < |pool| && DueAt(pool, clock, duration, i, n) :: i < next
  {
  }

  /** A round keeps who was carried into any round up to it. */
  lemma {:induction false} CarriedStep(active: seq<Active>, updated: seq<Active>, finished: seq<Finished>,
        seen: seq<Sighting>, spec: nat, round: nat, r: nat)
    requires Stepped(active, updated, seen, spec) && r <= round
    requires CarriedInto(Still(updated), finished + DoneAll(Ended(updated), round), r)
    ensures CarriedInto(active, finished, r)
  {
    hide Still, Ended, DoneAll, Stepped;
    var still, ended, all := Still(updated), Ended(updated), finished + DoneAll(Ended(updated), round);
    SteppedShape(active, updated, seen, spec);
    forall a | a in updated ensures exists i :: 0 <= i < |active| && active[i].admitted == a.admitted {
      var j :| 0 <= j < |updated| && updated[j] == a;
      SteppedAt(active, updated, seen, spec, j);
    }
    if i :| 0 <= i < |still| && still[i].admitted < r {
      assert still[i] in still && still[i] in updated;
    } else if i :| 0 <= i < |all| && all[i].admitted < r <= all[i].round {
      if i >= |finished| {
        var e := ended[i - |finished|];
        assert e in ended && e in updated;
      }
    }
  }

  /** Serving a round in pass n keeps the record, if the round was full or kept nobody out, and
      nobody was active through a pass without a round. */
  lemma {:induction false} TimelyServed(entered: seq<Stay>, active: seq<Active>, updated: seq<Active>,
        finished: seq<Finished>, sights: seq<Sighting>, spec: nat, pool: seq<Request>, clock: nat -> nat, duration: nat,
        capacity: nat, count: nat, served: seq<nat>, n: nat)
    requires Timely(entered, active, finished, pool, clock, duration, capacity, count, served, n)
    requires Stepped(active, updated, sights, spec)
    requires forall r: nat | r <= |served| :: Present(active, finished, r)
                == Present(Still(updated), finished + DoneAll(Ended(updated), |served|), r)
    requires forall i | 0 <= i < count :: entered[i].admitted <= |served|
    requires Present(active, finished, |served|) == capacity
          || forall i | 0 <= i < |pool| && DueAt(pool, clock, duration, i, n) :: i < count
    requires CarriedInto(active, finished, |served|) ==> served != [] && served[|served| - 1] == n - 1
    ensures Timely(entered, Still(updated), finished + DoneAll(Ended(updated), |served|), pool, clock, duration,
                   capacity, count, served + [n], n + 1)
  {
    hide Present, DueAt, CarriedInto, Still, Ended, DoneAll, Stepped;
    var still, all, more := Still(updated), finished + DoneAll(Ended(updated), |served|), served + [n];
    forall r, i | 0 <= r < |more| && 0 <= i < |pool| && DueAt(pool, clock, duration, i, more[r])
      ensures AdmittedBy(entered, i, r) || Present(still, all, r) == capacity
    {
      assert r < |served| ==> more[r] == served[r];
    }
    forall r | 0 < r < |more| && CarriedInto(still, all, r) ensures more[r] == more[r - 1] + 1 {
      CarriedStep(active, updated, finished, sights, spec, |served|, r);
    }
  }

  /** Nobody finished was in a slot in the round about to be served. */
  lemma {:induction false} CarriedNow(seen: seq<Sighting>, active: seq<Active>, finished: seq<Finished>, round: nat,
        spec: nat)
    requires Told(seen, active, finished, round, spec)
    ensures CarriedInto(active, finished, round) ==> exists i | 0 <= i < |active| :: active[i].admitted < round
  {
    hide Said;
  }

  lemma {:induction false} EnteredBefore(entered: seq<Stay>, active: seq<Active>, finished: seq<Finished>, round: nat)
    requires EntryBook(entered, active, finished, round)
    ensures forall i | 0 <= i < |entered| :: entered[i].admitted <= round
  {
    hide StaysOf, StaysDone;
  }

  /** Serve one round. */
  method SustainedStep(c: ServingCore, ghost pool: seq<Request>, ghost count: nat, ghost waiting: seq<Request>,
        ghost next: nat, ghost clock: nat -> nat, ghost duration: nat, ghost served: seq<nat>, ghost n: nat)
    requires c.Valid() && c.active != [] && Paired(c.active, c.capacity)
    requires PoolBooks(c.active, c.finished, pool, count, waiting, next) && |served| == c.round
    requires Timely(c.entered, c.active, c.finished, pool, clock, duration, c.capacity, count, served, n)
    requires c.free == [] || forall i | 0 <= i < |pool| && DueAt(pool, clock, duration, i, n) :: i < count
    requires (exists i | 0 <= i < |c.active| :: c.active[i].admitted < c.round) ==>
               served != [] && served[|served| - 1] == n - 1
    modifies c, c.b.r
    ensures c.Valid() && Paired(c.active, c.capacity) && |c.b.r.slots| == old(|c.b.r.slots|)
    ensures c.round == old(c.round) + 1
    ensures PoolBooks(c.active, c.finished, pool, count, waiting, next) && Work(c.active) + 1 <= old(Work(c.active))
    ensures c.correct == old(c.correct)
    ensures Timely(c.entered, c.active, c.finished, pool, clock, duration, c.capacity, count, served + [n], n + 1)
  {
    hide RequestsOf, DoneOf, Work, Sound, AllServed, LogIsTrue, Partitioned, Runner.Valid, Still, Ended, DoneAll,
         Stepped, StampedAt, Paired, Told, Attended, EntryBook, Present, Timely, DueAt, CarriedInto;
    CarriedNow(c.seen, c.active, c.finished, c.round, c.b.r.spec);
    EnteredBefore(c.entered, c.active, c.finished, c.round);
    ToldPresent(c.seen, c.active, c.finished, c.round, c.b.r.spec);
    TimelyCount(c.entered, c.active, c.finished, pool, clock, duration, c.capacity, count, served, n);
    if c.free == [] {
      FullWhenNoneFree(c.free, c.active, c.capacity);
    }
    label before:
    var rows;
    ghost var sights, updated;
    rows, sights, updated := c.ServeRound();
    PairedStepped(old@before(c.active), updated, sights, c.b.r.spec, c.capacity);
    TimelyServed(c.entered, old@before(c.active), updated, old@before(c.finished), sights, c.b.r.spec, pool, clock,
                 duration, c.capacity, count, served, n);
  }

  ghost predicate Nondecreasing(clock: nat -> nat) {
    forall m: nat, n: nat | m <= n :: clock(m) <= clock(n)
  }

  /** The clock does not pass the limit before pass n. */
  ghost predicate NotBefore(clock: nat -> nat, limit: nat, n: nat) {
    forall m: nat :: clock(m) > limit ==> n <= m
  }

  lemma StillNotBefore(clock: nat -> nat, limit: nat, n: nat, idle: nat)
    requires Nondecreasing(clock) && clock(n) <= limit && idle <= n
    ensures NotBefore(clock, limit, idle + 1)
  {
  }

  lemma StaysClosed(clock: nat -> nat, duration: nat, n: nat, closed: bool)
    requires Nondecreasing(clock) && (closed ==> n > 0 && clock(n - 1) >= duration)
    ensures closed ==> clock(n) >= duration
  {
  }

  /** The first k requests had all arrived by some pass before the driver closed. */
  ghost predicate ArrivedBy(pool: seq<Request>, clock: nat -> nat, duration: nat, k: nat)
    requires k <= |pool|
  {
    k == 0 || exists m: nat :: clock(m) < duration && forall i | 0 <= i < k :: pool[i].arrival <= clock(m)
  }

  /** After n passes `next` requests were pulled: they had all arrived in time, and the one after
      them had not at any pass so far before closing. */
  ghost predicate Pulled(pool: seq<Request>, clock: nat -> nat, duration: nat, n: nat, next: nat) {
    && next <= |pool| && ArrivedBy(pool, clock, duration, next)
    && (next < |pool| ==> forall m: nat | m < n && clock(m) < duration :: pool[next].arrival > clock(m))
  }

  lemma PulledStep(pool: seq<Request>, clock: nat -> nat, duration: nat, n: nat, next: nat, next': nat)
    requires Pulled(pool, clock, duration, n, next) && next <= next' <= |pool|
    requires Nondecreasing(clock)
    requires clock(n) >= duration ==> next' == next
    requires forall i | next <= i < next' :: pool[i].arrival <= clock(n)
    requires clock(n) < duration && next' < |pool| ==> pool[next'].arrival > clock(n)
    ensures Pulled(pool, clock, duration, n + 1, next')
  {
    if next' > next > 0 {
      var m: nat :| clock(m) < duration && forall i | 0 <= i < next :: pool[i].arrival <= clock(m);
      var last := if m <= n then n else m;
      assert clock(m) <= clock(last) && clock(n) <= clock(last) < duration;
    }
  }

  lemma PulledArrived(pool: seq<Request>, clock: nat -> nat, duration: nat, n: nat, next: nat)
    requires Pulled(pool, clock, duration, n, next)
    ensures next <= |pool| && ArrivedBy(pool, clock, duration, next)
  {
  }

  /** Once the driver has closed, what was pulled is exactly what had arrived in time. */
  lemma PulledMeans(pool: seq<Request>, clock: nat -> nat, duration: nat, n: nat, next: nat, k: nat)
    requires Pulled(pool, clock, duration, n + 1, next) && clock(n) >= duration && k <= |pool|
    requires Nondecreasing(clock)
    ensures ArrivedBy(pool, clock, duration, k) <==> k <= next
  {
  }

  lemma AllPulled(pool: seq<Request>, clock: nat -> nat, duration: nat, n: nat, next: nat)
    requires Pulled(pool, clock, duration, n + 1, next) && clock(n) >= duration && Nondecreasing(clock)
    ensures forall k | 0 <= k <= |pool| :: ArrivedBy(pool, clock, duration, k) <==> k <= next
  {
    forall k | 0 <= k <= |pool| ensures ArrivedBy(pool, clock, duration, k) <==> k <= next {
      PulledMeans(pool, clock, duration, n, next, k);
    }
  }

  /** One pass up to the point where the loop decides what to do: arrivals, then admission. */
  method PassHead(c: ServingCore, pool: seq<Request>, count: nat, waiting: seq<Request>, next: nat, elapsed: nat,
        closed: bool, ghost clock: nat -> nat, ghost duration: nat, ghost served: seq<nat>, ghost n: nat)
    returns (count': nat, waiting': seq<Request>, next': nat)
    requires c.Valid() && Paired(c.active, c.capacity) && 3 * c.capacity <= |c.b.r.slots|
    requires elapsed == clock(n) && (elapsed >= duration ==> closed) && (closed ==> clock(n) >= duration)
    requires Nondecreasing(clock) && Pulled(pool, clock, duration, n, next)
    requires |served| == c.round && (c.active != [] ==> served != [] && served[|served| - 1] == n - 1)
    requires Timely(c.entered, c.active, c.finished, pool, clock, duration, c.capacity, count, served, n)
    requires PoolBooks(c.active, c.finished, pool, count, waiting, next) && next <= |pool|
    requires forall i | 0 <= i < |pool| :: |pool[i].prompt| >= 2
    modifies c, c.b.r
    ensures c.Valid() && Paired(c.active, c.capacity) && |c.b.r.slots| == old(|c.b.r.slots|)
    ensures PoolBooks(c.active, c.finished, pool, count', waiting', next') && next <= next' <= |pool|
    ensures Work(c.active) + NeedOf(waiting') + NeedOf(pool[next'..])
         == old(Work(c.active)) + NeedOf(waiting) + NeedOf(pool[next..])
    ensures closed ==> next' == next
    ensures forall i | next <= i < next' :: pool[i].arrival <= elapsed
    ensures !closed && next' < |pool| ==> pool[next'].arrival > elapsed
    ensures c.free == [] || waiting' == []
    ensures c.round == old(c.round) && count <= count' <= |pool|
    ensures Pulled(pool, clock, duration, n + 1, next') && ArrivedBy(pool, clock, duration, next')
    ensures count' + |waiting'| == next'
    ensures forall i | 0 <= i < |pool| && DueAt(pool, clock, duration, i, n) :: i < next'
    ensures Timely(c.entered, c.active, c.finished, pool, clock, duration, c.capacity, count', served, n)
    ensures (exists i | 0 <= i < |c.active| :: c.active[i].admitted < c.round) ==>
              served != [] && served[|served| - 1] == n - 1
    ensures old(c.correct) == AllFirstOk(c.b.r.single, c.b.r.batch, pool[..count]) ==>
              c.correct == AllFirstOk(c.b.r.single, c.b.r.batch, pool[..count'])
  {
    hide RequestsOf, DoneOf, Work, NeedOf, Sound, AllServed, LogIsTrue, Partitioned, Runner.Valid, Paired,
         PoolBooks, Told, AllFirstOk, Attended, EntryBook, Came, Timely, Pulled, ArrivedBy, DueAt, Nondecreasing;
    next', waiting' := next, waiting;
    if !closed {
      next', waiting' := PullArrived(pool, next, waiting, elapsed);
      PoolPulled(c.active, c.finished, pool, count, waiting, next, next');
    }
    PoolMeans(c.active, c.finished, pool, count, waiting', next');
    PulledStep(pool, clock, duration, n, next, next');
    PulledArrived(pool, clock, duration, n + 1, next');
    DueIsPulled(pool, clock, duration, n, next');
    label before:
    var admit, rest := AdmitWaiting(c, waiting');
    PoolAdmitted(old@before(c.active), c.active, c.finished, pool, count, waiting', next', admit, rest);
    FirstOkAppend(c.b.r.single, c.b.r.batch, pool[..count], admit);
    count', waiting' := count + |admit|, rest;
    ghost var was, before := old@before(c.active), old@before(c.entered);
    TimelyCame(was, c.active, before, c.entered, c.finished, pool, clock, duration, c.capacity, count, count',
               served, n);
    if was == [] {
      CameFresh(was, c.active, before, c.entered, c.finished, admit, c.round);
    }
  }

  /** Everything that holds before pass n of the loop. */
  ghost predicate Going(c: ServingCore, pool: seq<Request>, clock: nat -> nat, duration: nat, n: nat, count: nat,
        waiting: seq<Request>, next: nat, closed: bool, served: seq<nat>, idle: nat)
    reads c, c.b.r
  {
    && c.Valid() && Paired(c.active, c.capacity) && 3 * c.capacity <= |c.b.r.slots|
    && PoolBooks(c.active, c.finished, pool, count, waiting, next) && count <= |pool|
    && Pulled(pool, clock, duration, n, next) && next <= |pool|
    && c.correct == AllFirstOk(c.b.r.single, c.b.r.batch, pool[..count])
    && (closed ==> n > 0 && clock(n - 1) >= duration)
    && n == c.round + idle && c.round < ROUND_CAP && NotBefore(clock, duration + VALVE_SLACK, idle)
    && c.round + Work(c.active) + NeedOf(waiting) + NeedOf(pool[next..]) <= NeedOf(pool)
    && |served| == c.round && (c.active != [] ==> served != [] && served[|served| - 1] == n - 1)
    && Timely(c.entered, c.active, c.finished, pool, clock, duration, c.capacity, count, served, n)
  }

  /** What was admitted, and what had arrived in time, at any point of a run. */
  ghost predicate Standing(c: ServingCore, pool: seq<Request>, clock: nat -> nat, duration: nat, count: nat,
        waiting: seq<Request>, next: nat)
    reads c, c.b.r
  {
    && c.Valid() && PoolBooks(c.active, c.finished, pool, count, waiting, next)
    && count <= next <= |pool| && ArrivedBy(pool, clock, duration, next) && c.round <= NeedOf(pool)
    && c.correct == AllFirstOk(c.b.r.single, c.b.r.batch, pool[..count])
  }

  lemma GoingIsTimely(c: ServingCore, pool: seq<Request>, clock: nat -> nat, duration: nat, n: nat, count: nat,
        waiting: seq<Request>, next: nat, closed: bool, served: seq<nat>, idle: nat)
    requires Going(c, pool, clock, duration, n, count, waiting, next, closed, served, idle)
    ensures |served| == c.round
    ensures Timely(c.entered, c.active, c.finished, pool, clock, duration, c.capacity, count, served, n)
    ensures c.active != [] ==> served != [] && served[|served| - 1] == n - 1
  {
    hide ServingCore.Valid, AllFirstOk, Work, NeedOf, RequestsOf, DoneOf, Timely;
  }

  lemma GoingStands(c: ServingCore, pool: seq<Request>, clock: nat -> nat, duration: nat, n: nat, count: nat,
        waiting: seq<Request>, next: nat, closed: bool, served: seq<nat>, idle: nat)
    requires Going(c, pool, clock, duration, n, count, waiting, next, closed, served, idle)
    ensures Standing(c, pool, clock, duration, count, waiting, next)
  {
    hide ServingCore.Valid, AllFirstOk, Work, NeedOf, RequestsOf, DoneOf, Timely;
  }

  /** One pass over the loop; `Looping` if it goes on. */
  method SustainedPass(c: ServingCore, pool: seq<Request>, clock: nat -> nat, duration: nat, n: nat, count: nat,
        waiting: seq<Request>, next: nat, closed: bool, ghost served: seq<nat>, ghost idle: nat)
    returns (exit: Exit, count': nat, waiting': seq<Request>, next': nat, closed': bool, ghost served': seq<nat>,
             ghost idle': nat)
    requires Going(c, pool, clock, duration, n, count, waiting, next, closed, served, idle) && Nondecreasing(clock)
    requires forall i | 0 <= i < |pool| :: |pool[i].prompt| >= 2
    modifies c, c.b.r
    ensures Standing(c, pool, clock, duration, count', waiting', next')
    ensures exit == Looping ==> Going(c, pool, clock, duration, n + 1, count', waiting', next', closed', served', idle')
    ensures exit == Drained || exit == Valve ==>
              && c.active == [] && waiting' == [] && count' == next' && c.round < ROUND_CAP
              && forall k | 0 <= k <= |pool| :: ArrivedBy(pool, clock, duration, k) <==> k <= count'
    ensures exit == Drained ==> count' == |pool|
    ensures exit == Valve ==> count' < |pool|
    ensures exit == RoundCap ==> c.round >= ROUND_CAP
    ensures |served'| == c.round
    ensures Timely(c.entered, c.active, c.finished, pool, clock, duration, c.capacity, count', served', n + 1)
  {
    hide RequestsOf, DoneOf, Work, NeedOf, ServingCore.Valid, Runner.Valid, Paired, PoolBooks, Pulled, ArrivedBy,
         AllFirstOk, Nondecreasing, NotBefore, Timely, Came, DueAt;
    var elapsed := clock(n);
    StaysClosed(clock, duration, n, closed);
    closed', served', idle' := closed || elapsed >= duration, served, idle;
    count', waiting', next' := PassHead(c, pool, count, waiting, next, elapsed, closed', clock, duration, served, n);
    exit := Looping;
    if c.active == [] {
      CoreQueueEmpty(c, waiting');
      if closed' {
        AllPulled(pool, clock, duration, n, next');
      }
      if closed' && waiting' == [] && next' == |pool| {
        exit := Drained;
      } else if elapsed > duration + VALVE_SLACK {
        exit := Valve;
      } else {
        StillNotBefore(clock, duration + VALVE_SLACK, n, idle);
        idle' := idle + 1;
      }
      TimelyLater(c.entered, c.active, c.finished, pool, clock, duration, c.capacity, count', served, n, n + 1);
    } else {
      SustainedStep(c, pool, count', waiting', next', clock, duration, served, n);
      served' := served + [n];
      if c.round >= ROUND_CAP {
        exit := RoundCap;
      }
    }
  }

  /** The run up to the verdict, for any nondecreasing clock and at most `passes` passes.
      However it ends short of the round cap, exactly the requests that had arrived by the last
      pass before closing were admitted, and all of them have finished.  It drains exactly when
      that is the whole pool; otherwise the safety valve ends it.  The round cap can only be
      reached by a pool that asks for that many tokens, and once the clock has passed the valve
      only serving can keep the loop going. */
  method RunSustained(c: ServingCore, pool: seq<Request>, clock: nat -> nat, duration: nat, passes: nat)
    returns (exit: Exit, count: nat, waiting: seq<Request>, next: nat, ghost served: seq<nat>)
    requires c.Valid() && c.active == [] && c.finished == [] && c.round == 0 && c.correct
    requires 3 * c.capacity <= |c.b.r.slots|
    requires forall i | 0 <= i < |pool| :: |pool[i].prompt| >= 2
    requires Nondecreasing(clock)
    modifies c, c.b.r
    ensures c.Valid() && PoolBooks(c.active, c.finished, pool, count, waiting, next)
    ensures count <= next <= |pool| && ArrivedBy(pool, clock, duration, next) && c.round <= NeedOf(pool)
    ensures c.active == [] ==> multiset(DoneOf(c.finished)) == multiset(pool[..count])
    ensures c.correct == AllFirstOk(c.b.r.single, c.b.r.batch, pool[..count])
    ensures exit == Drained || exit == Valve ==> c.active == [] && waiting == [] && count == next && c.round < ROUND_CAP
    ensures exit == Drained || exit == Valve ==>
              forall k | 0 <= k <= |pool| :: ArrivedBy(pool, clock, duration, k) <==> k <= count
    ensures exit == Drained ==> count == |pool|
    ensures exit == Valve ==> count < |pool|
    ensures exit == RoundCap ==> c.round >= ROUND_CAP
    ensures forall m: nat :: clock(m) > duration + VALVE_SLACK && passes > m + NeedOf(pool) ==> exit != Looping
    ensures |served| == c.round
    ensures Timely(c.entered, c.active, c.finished, pool, clock, duration, c.capacity, count, served, passes)
    ensures exit == Looping && c.active != [] ==> served != [] && served[|served| - 1] == passes - 1
  {
    hide RequestsOf, DoneOf, Work, NeedOf, ServingCore.Valid, Runner.Valid, Paired, PoolBooks, ArrivedBy, AllFirstOk,
         NotBefore, Going, Timely;
    waiting, next, count, served := [], 0, 0, [];
    var closed := false;
    ghost var idle: nat := 0;
    SustainedStarts(c, pool, clock, duration);
    for n := 0 to passes
      invariant Going(c, pool, clock, duration, n, count, waiting, next, closed, served, idle)
    {
      exit, count, waiting, next, closed, served, idle :=
        SustainedPass(c, pool, clock, duration, n, count, waiting, next, closed, served, idle);
      if exit != Looping {
        TimelyLater(c.entered, c.active, c.finished, pool, clock, duration, c.capacity, count, served, n + 1, passes);
        PoolMeans(c.active, c.finished, pool, count, waiting, next);
        return;
      }
    }
    GoingStands(c, pool, clock, duration, passes, count, waiting, next, closed, served, idle);
    GoingIsTimely(c, pool, clock, duration, passes, count, waiting, next, closed, served, idle);
    PoolMeans(c.active, c.finished, pool, count, waiting, next);
    GoingRunsOut(c, pool, clock, duration, passes, count, waiting, next, closed, served, idle);
    exit := Looping;
  }

  lemma GoingRunsOut(c: ServingCore, pool: seq<Request>, clock: nat -> nat, duration: nat, n: nat, count: nat,
        waiting: seq<Request>, next: nat, closed: bool, served: seq<nat>, idle: nat)
    requires Going(c, pool, clock, duration, n, count, waiting, next, closed, served, idle)
    ensures forall m: nat :: clock(m) > duration + VALVE_SLACK ==> n <= m + NeedOf(pool)
  {
    hide ServingCore.Valid, AllFirstOk, PoolBooks, Pulled, Work, NeedOf, Timely;
  }

  lemma SustainedStarts(c: ServingCore, pool: seq<Request>, clock: nat -> nat, duration: nat)
    requires c.Valid() && c.active == [] && c.finished == [] && c.round == 0 && c.correct
    requires 3 * c.capacity <= |c.b.r.slots|
    ensures Going(c, pool, clock, duration, 0, 0, [], 0, false, [], 0)
  {
    hide ServingCore.Valid, Timely;
    NobodyEntered(c);
    TimelyStarts(pool, clock, duration, c.capacity);
    assert pool[0..] == pool;
  }

  lemma NobodyEntered(c: ServingCore)
    requires c.Valid() && c.active == [] && c.finished == []
    ensures c.entered == []
  {
    hide Runner.Valid, Sound, AllServed, LogIsTrue, Partitioned, Told, Attended;
    assert |multiset(c.entered)| == |c.entered|;
  }
}
