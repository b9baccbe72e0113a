/**
  The staggered-arrival driver: requests become eligible at fixed rounds, join as slots free
  up, and are served to completion.
 */
module AsyncArrivals {
  import opened Ledgers
  import opened Network
  import opened Occupancies
  import opened Outcomes
  import opened Rosters
  import opened Runners
  import opened ServingCores
  import opened Sorting

  const MAX_ROUNDS: nat := 500

  function ArrivalOf(req: Request): nat {
    req.arrival
  }

  ghost predicate ByArrival(reqs: seq<Request>) {
    forall i, j | 0 <= i < j < |reqs| :: reqs[i].arrival <= reqs[j].arrival
  }

  lemma {:induction false} NeedOfPermutation(a: seq<Request>, b: seq<Request>)
    requires multiset(a) == multiset(b)
    ensures NeedOf(a) == NeedOf(b)
    decreases |b|
  {
    assert |multiset(a)| == |a| && |multiset(b)| == |b|;
    if b != [] {
      hide NeedOf;
      var front, x := b[..|b| - 1], b[|b| - 1];
      assert b == front + [x];
      assert x in multiset(a);
      var p :| 0 <= p < |a| && a[p] == x;
      DropOne(a, p, front);
      NeedOfPermutation(a[..p] + a[p + 1..], front);
      NeedAround(a, p);
      NeedAround(b, |front|);
      assert b[..|front|] + b[|front| + 1..] == front;
    }
  }

  lemma DropOne(a: seq<Request>, p: nat, front: seq<Request>)
    requires p < |a| && multiset(a) == multiset(front + [a[p]])
    ensures multiset(a[..p] + a[p + 1..]) == multiset(front)
  {
    var x, left, right := a[p], a[..p], a[p + 1..];
    assert a == left + [x] + right;
    assert multiset(left + right) == multiset(a) - multiset{x};
    assert multiset(front + [x]) == multiset(front) + multiset{x};
  }

  lemma NeedAround(a: seq<Request>, p: nat)
    requires p < |a|
    ensures NeedOf(a) == NeedOf(a[..p] + a[p + 1..]) + Need(a[p])
  {
    var left, right := a[..p], a[p + 1..];
    assert a == left + [a[p]] + right;
    NeedAppend(left + [a[p]], right);
    NeedAppend(left, right);
    assert (left + [a[p]])[..|left|] == left;
  }

  /** The admission scan over everything pending.  Although it looks at every request, on a
      sorted list what it takes is a prefix, and it stops short only of requests that have
      not arrived or for want of slots. */
  method ScanEligible(pending: seq<Request>, free: nat, round: nat) returns (admit: seq<Request>, rest: seq<Request>)
    requires ByArrival(pending)
    ensures admit + rest == pending && |admit| <= free
    ensures forall i | 0 <= i < |admit| :: admit[i].arrival <= round
    ensures |admit| == free || forall i | 0 <= i < |rest| :: rest[i].arrival > round
  {
    hide ByArrival, Cut;
    admit, rest := [], [];
    ghost var k: nat := 0;
    NothingCut(pending, free, round);
    for i := 0 to |pending|
      invariant k <= i && k <= free && |admit| == k && admit == pending[..k] && rest == pending[k..i]
      invariant Cut(pending, k, i, free, round)
    {
      CutStep(pending, k, i, free, round);
      if pending[i].arrival <= round && |admit| < free {
        assert pending[k + 1..i + 1] == [] == rest;
        admit, k := admit + [pending[i]], k + 1;
      } else {
        rest := rest + [pending[i]];
      }
    }
    CutMeans(pending, k, free, round);
  }

  /** Of the first i requests exactly the first k were taken, for want of slots or of arrivals. */
  ghost predicate Cut(pending: seq<Request>, k: nat, i: nat, free: nat, round: nat) {
    && k <= i <= |pending| && (forall j | 0 <= j < k :: pending[j].arrival <= round)
    && (k == free || k == i || pending[k].arrival > round)
  }

  lemma NothingCut(pending: seq<Request>, free: nat, round: nat)
    ensures Cut(pending, 0, 0, free, round)
  {
  }

  lemma CutStep(pending: seq<Request>, k: nat, i: nat, free: nat, round: nat)
    requires ByArrival(pending) && Cut(pending, k, i, free, round) && i < |pending| && k <= free
    ensures if pending[i].arrival <= round && k < free then k == i && Cut(pending, k + 1, i + 1, free, round)
            else Cut(pending, k, i + 1, free, round)
    ensures pending[..k + 1] == pending[..k] + [pending[k]] && pending[k..i + 1] == pending[k..i] + [pending[i]]
  {
    assert k < i ==> pending[k].arrival <= pending[i].arrival;
  }

  lemma CutMeans(pending: seq<Request>, k: nat, free: nat, round: nat)
    requires ByArrival(pending) && Cut(pending, k, |pending|, free, round)
    ensures pending[..k] + pending[k..] == pending
    ensures forall i | 0 <= i < k :: pending[..k][i].arrival <= round
    ensures k == free || forall i | 0 <= i < |pending| - k :: pending[k..][i].arrival > round
  {
    if k < free && k < |pending| {
      forall i | 0 <= i < |pending| - k ensures pending[k..][i].arrival > round {
        assert pending[k..][i] == pending[k + i];
      }
    }
  }

  // ---------------------------------------------------------------------------
  // Request identities and their reference slots.
  // ---------------------------------------------------------------------------

  ghost predicate DistinctIds(reqs: seq<Request>) {
    forall i, j | 0 <= i < j < |reqs| :: reqs[i].id != reqs[j].id
  }

  lemma {:induction false} OnceEach(reqs: seq<Request>)
    requires DistinctIds(reqs)
    ensures forall x :: multiset(reqs)[x] <= 1
  {
    if reqs != [] {
      var front, last := reqs[..|reqs| - 1], reqs[|reqs| - 1];
      OnceEach(front);
      assert reqs == front + [last];
      forall x ensures multiset(reqs)[x] <= 1 {
        assert multiset(reqs) == multiset(front) + multiset{last};
        if x == last {
          assert x !in front;
        }
      }
    }
  }

  /** Whatever part of the table is still around has no identity twice. */
  lemma PartHasDistinctIds(part: seq<Request>, whole: seq<Request>)
    requires DistinctIds(whole) && multiset(part) <= multiset(whole)
    ensures DistinctIds(part) && forall i | 0 <= i < |part| :: part[i] in whole
  {
    OnceEach(whole);
    forall i | 0 <= i < |part| ensures part[i] in whole {
      assert part[i] in multiset(part);
    }
    forall i, j | 0 <= i < j < |part| ensures part[i].id != part[j].id {
      if part[i].id == part[j].id {
        var p :| 0 <= p < |whole| && whole[p] == part[i];
        var q :| 0 <= q < |whole| && whole[q] == part[j];
        assert p == q;
        CountTwo(part, i, j);
      }
    }
  }

  /** The fixed tables giving every request its own reference slot and margin slot. */
  ghost predicate Tables(reqs: seq<Request>, refs: map<nat, nat>, diags: map<nat, nat>, capacity: nat, numSlots: nat) {
    && (forall i | 0 <= i < |reqs| :: reqs[i].id in refs && reqs[i].id in diags)
    && (forall i | 0 <= i < |reqs| ::
          capacity <= refs[reqs[i].id] < numSlots && capacity <= diags[reqs[i].id] < numSlots)
    && (forall i, j | 0 <= i < |reqs| && 0 <= j < |reqs| :: refs[reqs[i].id] != diags[reqs[j].id])
    && (forall x, y | x in refs && y in refs && refs[x] == refs[y] :: x == y)
  }

  method Lookup(reqs: seq<Request>, table: map<nat, nat>) returns (slots: seq<nat>)
    requires forall i | 0 <= i < |reqs| :: reqs[i].id in table
    ensures |slots| == |reqs| && forall i | 0 <= i < |reqs| :: slots[i] == table[reqs[i].id]
  {
    slots := [];
    for i := 0 to |reqs|
      invariant |slots| == i && forall j | 0 <= j < i :: slots[j] == table[reqs[j].id]
    {
      slots := slots + [table[reqs[i].id]];
    }
  }

  /** Every active request sits on its own reference slot and came no earlier than it may. */
  ghost predicate Housed(active: seq<Active>, refs: map<nat, nat>, round: nat) {
    forall i | 0 <= i < |active| ::
      && active[i].req.id in refs && active[i].refSlot == refs[active[i].req.id]
      && active[i].req.arrival <= active[i].admitted <= round
  }

  lemma TablesSpare(active: seq<Active>, admit: seq<Request>, whole: seq<Request>, refs: map<nat, nat>,
        diags: map<nat, nat>, rs: seq<nat>, ds: seq<nat>, round: nat, capacity: nat, numSlots: nat)
    requires Tables(whole, refs, diags, capacity, numSlots) && DistinctIds(whole) && Housed(active, refs, round)
    requires multiset(RequestsOf(active) + admit) <= multiset(whole)
    requires |rs| == |ds| == |admit| && forall i | 0 <= i < |admit| ::
               admit[i].id in refs && admit[i].id in diags && rs[i] == refs[admit[i].id] && ds[i] == diags[admit[i].id]
    ensures Spare(active, rs, ds, capacity, numSlots)
  {
    hide RequestsOf, Tables, DistinctIds;
    var here, n := RequestsOf(active) + admit, |active|;
    PartHasDistinctIds(here, whole);
    forall i | 0 <= i < |rs|
      ensures capacity <= rs[i] < numSlots && capacity <= ds[i] < numSlots
      ensures forall j | 0 <= j < n :: rs[i] != active[j].refSlot && ds[i] != active[j].refSlot
      ensures forall j | 0 <= j < |rs| :: ds[i] != rs[j] && (i < j ==> rs[i] != rs[j])
    {
      assert here[n + i] == admit[i] && here[n + i] in whole;
      forall j | 0 <= j < n ensures rs[i] != active[j].refSlot && ds[i] != active[j].refSlot {
        assert here[j] == active[j].req && here[j] in whole;
        TablesApart(here, whole, refs, diags, capacity, numSlots, j, n + i);
      }
      forall j | 0 <= j < |rs| ensures ds[i] != rs[j] && (i < j ==> rs[i] != rs[j]) {
        assert here[n + j] == admit[j] && here[n + j] in whole;
        if i < j {
          TablesApart(here, whole, refs, diags, capacity, numSlots, n + i, n + j);
        }
        TablesCross(whole, refs, diags, capacity, numSlots, admit[i], admit[j]);
      }
      TablesCross(whole, refs, diags, capacity, numSlots, admit[i], admit[i]);
    }
  }

  lemma TablesCross(whole: seq<Request>, refs: map<nat, nat>, diags: map<nat, nat>, capacity: nat, numSlots: nat,
        x: Request, y: Request)
    requires Tables(whole, refs, diags, capacity, numSlots) && x in whole && y in whole
    ensures x.id in diags && x.id in refs && y.id in refs && diags[x.id] != refs[y.id]
    ensures capacity <= refs[x.id] < numSlots && capacity <= diags[x.id] < numSlots
  {
  }

  lemma TablesApart(here: seq<Request>, whole: seq<Request>, refs: map<nat, nat>, diags: map<nat, nat>, capacity: nat,
        numSlots: nat, i: nat, j: nat)
    requires Tables(whole, refs, diags, capacity, numSlots) && DistinctIds(here) && i < j < |here| && here[i] in whole
    requires here[j] in whole
    ensures here[i].id in refs && here[j].id in refs && here[j].id in diags
    ensures refs[here[i].id] != refs[here[j].id] && diags[here[j].id] != refs[here[i].id]
  {
    assert here[i].id != here[j].id;
    TablesCross(whole, refs, diags, capacity, numSlots, here[j], here[i]);
  }

  // ---------------------------------------------------------------------------
  // The run.
  // ---------------------------------------------------------------------------

  /** Somebody due by round r got no slot in it: admitted only later, or not at all yet. */
  ghost predicate Delayed(active: seq<Active>, finished: seq<Finished>, pending: seq<Request>, r: nat) {
    || (exists i | 0 <= i < |active| :: active[i].req.arrival <= r < active[i].admitted)
    || (exists i | 0 <= i < |finished| :: finished[i].req.arrival <= r < finished[i].admitted)
    || (exists i | 0 <= i < |pending| :: pending[i].arrival <= r)
  }

  /** Nobody waits but for want of slots: in every round so far that somebody due was kept out of,
      every production slot was taken. */
  ghost predicate Eager(active: seq<Active>, finished: seq<Finished>, pending: seq<Request>, capacity: nat,
        round: nat)
  {
    forall r: nat | r < round && Delayed(active, finished, pending, r) :: Present(active, finished, r) == capacity
  }

  lemma {:induction false} EagerStarts(active: seq<Active>, finished: seq<Finished>, pending: seq<Request>,
        capacity: nat)
    ensures Eager(active, finished, pending, capacity, 0)
  {
  }

  /** Admitting from the front of the queue keeps every earlier delay a delay, and adds none. */
  lemma {:induction false} EagerAdmit(active: seq<Active>, more: seq<Active>, finished: seq<Finished>,
        pending: seq<Request>, ids: seq<nat>, refs: seq<nat>, admit: seq<Request>, rest: seq<Request>, capacity: nat,
        round: nat)
    requires Eager(active, finished, pending, capacity, round) && pending == admit + rest
    requires Joined(active, more, ids, refs, admit, round)
    requires forall r: nat | r < round :: Present(more, finished, r) == Present(active, finished, r)
    ensures Eager(more, finished, rest, capacity, round)
  {
    hide Present;
    forall r: nat | r < round && Delayed(more, finished, rest, r) ensures Present(more, finished, r) == capacity {
      if i :| 0 <= i < |more| && more[i].req.arrival <= r < more[i].admitted {
        if i < |active| {
          assert active[i] == more[..|active|][i];
        } else {
          var j := i - |active|;
          assert News(more[|active| + j], ids[j], refs[j], admit[j], round) && pending[j] == admit[j];
        }
      } else if i :| 0 <= i < |rest| && rest[i].arrival <= r {
        assert pending[|admit| + i] == rest[i];
      }
      assert Delayed(active, finished, pending, r);
    }
  }

  lemma {:induction false} EagerIdle(finished: seq<Finished>, pending: seq<Request>, capacity: nat, round: nat)
    requires Eager([], finished, pending, capacity, round)
    requires forall i | 0 <= i < |pending| :: pending[i].arrival > round
    requires forall i | 0 <= i < |finished| :: finished[i].admitted <= round
    ensures Eager([], finished, pending, capacity, round + 1)
  {
    hide Present;
  }

  /** Nobody active or finished was admitted in a round still to come. */
  lemma {:induction false} AdmittedBefore(seen: seq<Sighting>, active: seq<Active>, finished: seq<Finished>, round: nat,
        spec: nat)
    requires Told(seen, active, finished, round, spec)
    ensures forall i | 0 <= i < |active| :: active[i].admitted <= round
    ensures forall i | 0 <= i < |finished| :: finished[i].admitted <= round
  {
    hide Said;
  }

  /** After a served round the only new delay there can be is in that round, and then it was full. */
  lemma {:induction false} EagerStep(active: seq<Active>, updated: seq<Active>, finished: seq<Finished>,
        seen: seq<Sighting>, spec: nat, pending: seq<Request>, capacity: nat, round: nat)
    requires Eager(active, finished, pending, capacity, round) && Stepped(active, updated, seen, spec)
    requires forall i | 0 <= i < |active| :: active[i].admitted <= round
    requires forall i | 0 <= i < |finished| :: finished[i].admitted <= round
    requires forall r: nat | r <= round ::
               Present(Still(updated), finished + DoneAll(Ended(updated), round), r) == Present(active, finished, r)
    requires Present(active, finished, round) == capacity
          || forall i | 0 <= i < |pending| :: pending[i].arrival > round
    ensures Eager(Still(updated), finished + DoneAll(Ended(updated), round), pending, capacity, round + 1)
  {
    hide Present, Still, Ended, DoneAll, Stepped;
    var still, ended, all := Still(updated), Ended(updated), finished + DoneAll(Ended(updated), round);
    SteppedShape(active, updated, seen, spec);
    forall a | a in updated
      ensures exists i :: 0 <= i < |active| && active[i].req == a.req && active[i].admitted == a.admitted
    {
      var j :| 0 <= j < |updated| && updated[j] == a;
      SteppedAt(active, updated, seen, spec, j);
    }
    forall r: nat | r < round + 1 && Delayed(still, all, pending, r) ensures Present(still, all, r) == capacity {
      if i :| 0 <= i < |still| && still[i].req.arrival <= r < still[i].admitted {
        assert still[i] in still && still[i] in updated;
        assert Delayed(active, finished, pending, r);
      } else if i :| 0 <= i < |all| && all[i].req.arrival <= r < all[i].admitted {
        if i >= |finished| {
          var e := ended[i - |finished|];
          assert e in ended && e in updated;
        }
        assert Delayed(active, finished, pending, r);
      }
    }
  }

  /** Nobody finished who was admitted early. */
  ghost predicate Punctual(finished: seq<Finished>) {
    forall i | 0 <= i < |finished| :: finished[i].req.arrival <= finished[i].admitted <= finished[i].round
  }

  function MaxArrival(reqs: seq<Request>): (m: nat)
    ensures forall i | 0 <= i < |reqs| :: reqs[i].arrival <= m
    ensures reqs == [] || exists i | 0 <= i < |reqs| :: reqs[i].arrival == m
  {
    if reqs == [] then 0
    else
      var m := MaxArrival(reqs[..|reqs| - 1]);
      if reqs[|reqs| - 1].arrival > m then reqs[|reqs| - 1].arrival else m
  }

  lemma {:induction false} NeedAppend(a: seq<Request>, b: seq<Request>)
    ensures NeedOf(a + b) == NeedOf(a) + NeedOf(b)
  {
    if b == [] {
      assert a + b == a;
    } else {
      NeedAppend(a, b[..|b| - 1]);
      assert (a + b)[..|a + b| - 1] == a + b[..|b| - 1];
    }
  }

  /** A round leaves everyone still active where they were. */
  lemma HousedStepped(active: seq<Active>, updated: seq<Active>, seen: seq<Sighting>, spec: nat, refs: map<nat, nat>,
        round: nat)
    requires Housed(active, refs, round) && Stepped(active, updated, seen, spec)
    ensures Housed(Still(updated), refs, round + 1) && Punctual(DoneAll(Ended(updated), round))
  {
    hide Still, Ended, Stepped, Moved;
    var still, ended := Still(updated), Ended(updated);
    SteppedShape(active, updated, seen, spec);
    forall a | a in updated
      ensures a.req.id in refs && a.refSlot == refs[a.req.id] && a.req.arrival <= a.admitted <= round
    {
      var i :| 0 <= i < |updated| && updated[i] == a;
      SteppedAt(active, updated, seen, spec, i);
    }
    forall i | 0 <= i < |still|
      ensures still[i].req.id in refs && still[i].refSlot == refs[still[i].req.id]
      ensures still[i].req.arrival <= still[i].admitted <= round
    {
      assert still[i] in updated;
    }
    forall i | 0 <= i < |ended| ensures ended[i].req.arrival <= ended[i].admitted <= round {
      assert ended[i] in updated;
    }
  }

  lemma HousedJoined(active: seq<Active>, more: seq<Active>, ids: seq<nat>, rs: seq<nat>, reqs: seq<Request>,
        refs: map<nat, nat>, round: nat)
    requires Housed(active, refs, round) && Joined(active, more, ids, rs, reqs, round)
    requires forall i | 0 <= i < |reqs| :: reqs[i].id in refs && rs[i] == refs[reqs[i].id] && reqs[i].arrival <= round
    ensures Housed(more, refs, round)
  {
    forall j | 0 <= j < |more|
      ensures more[j].req.id in refs && more[j].refSlot == refs[more[j].req.id]
      ensures more[j].req.arrival <= more[j].admitted <= round
    {
      if j < |active| {
        assert more[j] == more[..|active|][j];
      } else {
        assert News(more[|active| + (j - |active|)], ids[j - |active|], rs[j - |active|], reqs[j - |active|], round);
      }
    }
  }

  /** The table a run is about. */
  ghost predicate Playable(whole: seq<Request>, refs: map<nat, nat>, diags: map<nat, nat>, capacity: nat,
        numSlots: nat)
  {
    && DistinctIds(whole) && Tables(whole, refs, diags, capacity, numSlots)
    && forall i | 0 <= i < |whole| :: |whole[i].prompt| >= 2
  }

  /** Admission at the head of a round.  It is order-preserving (a prefix of what is pending)
      and work-conserving (whoever is left has not arrived, or no slot is free). */
  method AdmitEligible(c: ServingCore, pending: seq<Request>, refs: map<nat, nat>, diags: map<nat, nat>,
        ghost whole: seq<Request>)
    returns (admit: seq<Request>, rest: seq<Request>)
    requires c.Valid() && ByArrival(pending) && Housed(c.active, refs, c.round)
    requires Playable(whole, refs, diags, c.capacity, |c.b.r.slots|)
    requires multiset(RequestsOf(c.active)) + multiset(pending) <= multiset(whole)
    modifies c, c.b.r
    ensures c.Valid() && |c.b.r.slots| == old(|c.b.r.slots|) && Housed(c.active, refs, c.round)
    ensures admit + rest == pending && RequestsOf(c.active) == RequestsOf(old(c.active)) + admit
    ensures Work(c.active) == Work(old(c.active)) + NeedOf(admit)
    ensures c.free == [] || forall i | 0 <= i < |rest| :: rest[i].arrival > c.round
    ensures c.finished == old(c.finished) && c.log == old(c.log) && c.round == old(c.round)
    ensures c.correct == (old(c.correct) && AllFirstOk(c.b.r.single, c.b.r.batch, admit))
    ensures Eager(old(c.active), c.finished, pending, c.capacity, c.round) ==>
              Eager(c.active, c.finished, rest, c.capacity, c.round)
  {
    hide RequestsOf, Work, NeedOf, Tables, DistinctIds, Sound, AllServed, LogIsTrue, Partitioned, Spare, Joined,
         Runner.Valid, Told, FirstOk, Attended, EntryBook, Present, Eager;
    admit, rest := ScanEligible(pending, |c.free|, c.round);
    if admit != [] {
      AdmitInWhole(c.active, admit, rest, whole);
      TablesKnow(admit, whole, refs, diags, c.capacity, |c.b.r.slots|);
      var rs := Lookup(admit, refs);
      var ds := Lookup(admit, diags);
      TablesSpare(c.active, admit, whole, refs, diags, rs, ds, c.round, c.capacity, |c.b.r.slots|);
      label before:
      CleanWhenLong(c.b.r.slots, c.free[..|admit|], admit);
      c.Admit(admit, rs, ds);
      ghost var was, ids := old@before(c.active), old@before(c.free)[..|admit|];
      HousedJoined(was, c.active, ids, rs, admit, refs, c.round);
      if Eager(was, c.finished, pending, c.capacity, c.round) {
        EagerAdmit(was, c.active, c.finished, pending, ids, rs, admit, rest, c.capacity, c.round);
      }
    } else {
      NeedNothing();
      assert RequestsOf(c.active) + [] == RequestsOf(c.active) && [] + rest == rest;
    }
  }

  lemma NeedNothing()
    ensures NeedOf([]) == 0
  {
  }

  lemma AdmitInWhole(active: seq<Active>, admit: seq<Request>, rest: seq<Request>, whole: seq<Request>)
    requires multiset(RequestsOf(active)) + multiset(admit + rest) <= multiset(whole)
    ensures multiset(RequestsOf(active) + admit) <= multiset(whole)
    ensures forall i | 0 <= i < |admit| :: admit[i] in whole
  {
    hide RequestsOf;
    forall i | 0 <= i < |admit| ensures admit[i] in whole {
      assert (admit + rest)[i] == admit[i] && admit[i] in multiset(admit + rest) && admit[i] in multiset(whole);
    }
    assert multiset(admit + rest) == multiset(admit) + multiset(rest);
  }

  lemma TablesKnow(admit: seq<Request>, whole: seq<Request>, refs: map<nat, nat>, diags: map<nat, nat>, capacity: nat,
        numSlots: nat)
    requires Playable(whole, refs, diags, capacity, numSlots) && forall i | 0 <= i < |admit| :: admit[i] in whole
    ensures forall i | 0 <= i < |admit| :: admit[i].id in refs && admit[i].id in diags && |admit[i].prompt| >= 2
  {
  }

  /** A slot is free whenever nothing is active. */
  lemma IdleHasFree(free: seq<nat>, capacity: nat)
    requires Partitioned(free, [], capacity) && capacity >= 1
    ensures free != []
  {
    assert |multiset(Range(capacity))| == capacity;
  }

  /** Every request is pending, active or finished; admission follows the sorted order. */
  ghost predicate Books(active: seq<Active>, finished: seq<Finished>, admitted: seq<Request>, pending: seq<Request>,
        sorted: seq<Request>)
  {
    && admitted + pending == sorted
    && multiset(RequestsOf(active)) + multiset(DoneOf(finished)) == multiset(admitted)
  }

  lemma BooksWithin(active: seq<Active>, finished: seq<Finished>, admitted: seq<Request>, pending: seq<Request>,
        sorted: seq<Request>, whole: seq<Request>)
    requires Books(active, finished, admitted, pending, sorted) && multiset(sorted) == multiset(whole)
    requires ByArrival(sorted)
    ensures multiset(RequestsOf(active)) + multiset(pending) <= multiset(whole) && ByArrival(pending)
  {
    hide RequestsOf, DoneOf;
    forall i | 0 <= i < |pending| ensures pending[i] == sorted[|admitted| + i] {}
    assert multiset(sorted) == multiset(admitted) + multiset(pending);
  }

  lemma BooksAdmit(active: seq<Active>, more: seq<Active>, finished: seq<Finished>, admitted: seq<Request>,
        admit: seq<Request>, rest: seq<Request>, sorted: seq<Request>)
    requires Books(active, finished, admitted, admit + rest, sorted) && RequestsOf(more) == RequestsOf(active) + admit
    ensures Books(more, finished, admitted + admit, rest, sorted)
  {
    hide RequestsOf, DoneOf;
    assert admitted + (admit + rest) == admitted + admit + rest;
  }

  /** An idle round happens only before the last arrival. */
  lemma IdleMeansEarly(free: seq<nat>, capacity: nat, round: nat, pending: seq<Request>, admitted: seq<Request>,
        whole: seq<Request>)
    requires Partitioned(free, [], capacity) && capacity >= 1 && pending != []
    requires free == [] || forall i | 0 <= i < |pending| :: pending[i].arrival > round
    requires multiset(admitted + pending) == multiset(whole)
    ensures round < MaxArrival(whole)
  {
    hide MaxArrival;
    IdleHasFree(free, capacity);
    assert pending[0] in multiset(admitted) + multiset(pending);
    assert pending[0] in whole;
  }

  lemma CoreHasFree(c: ServingCore)
    requires c.Valid() && c.active == []
    ensures c.free != []
  {
    hide Runner.Valid, Sound, AllServed, LogIsTrue, Partitioned, Told, Attended, EntryBook;
    IdleHasFree(c.free, c.capacity);
  }

  lemma HousedLater(active: seq<Active>, refs: map<nat, nat>, round: nat)
    requires Housed(active, refs, round)
    ensures Housed(active, refs, round + 1)
  {
  }

  lemma PunctualAppend(a: seq<Finished>, b: seq<Finished>)
    requires Punctual(a) && Punctual(b)
    ensures Punctual(a + b)
  {
  }

  /** The whole check up to the verdict.  Requests are admitted in order of arrival; every one
      ever admitted is either active or finished, finished with its full length and the
      batch model's own greedy output; and if the round cap leaves room for the last arrival
      plus every requested token, the cap is never reached and everyone finishes. */
  method RunAsyncArrival(c: ServingCore, requests: seq<Request>, refs: map<nat, nat>, diags: map<nat, nat>)
    returns (admitted: seq<Request>, left: seq<Request>)
    requires c.Valid() && c.active == [] && c.finished == [] && c.round == 0
    requires Playable(requests, refs, diags, c.capacity, |c.b.r.slots|)
    modifies c, c.b.r
    ensures c.Valid()
    ensures StablySorted(requests, admitted + left, ArrivalOf)
    ensures multiset(RequestsOf(c.active)) + multiset(DoneOf(c.finished)) == multiset(admitted)
    ensures Punctual(c.finished) && c.round <= MaxArrival(requests) + NeedOf(requests)
    ensures (left == [] && c.active == []) || c.round >= MAX_ROUNDS
    ensures c.correct == (old(c.correct) && AllFirstOk(c.b.r.single, c.b.r.batch, admitted))
    ensures Eager(c.active, c.finished, left, c.capacity, c.round)
  {
    hide RequestsOf, DoneOf, Work, NeedOf, Playable, Sound, AllServed, LogIsTrue, Partitioned, Runner.Valid,
         WithKey, MaxArrival, Still, Ended, DoneAll, Punctual, Housed, Books, Told, AllFirstOk, Attended, EntryBook,
         Eager;
    var pending := SortBy(requests, ArrivalOf);
    NeedOfPermutation(pending, requests);
    ghost var sorted := pending;
    ghost var busy: nat := 0;
    admitted := [];
    RunStarts(sorted, refs, c.active, c.finished, c.round);
    NobodyYet(c.b.r.single, c.b.r.batch);
    EagerStarts(c.active, c.finished, pending, c.capacity);
    while (pending != [] || c.active != []) && c.round < MAX_ROUNDS
      invariant c.Valid() && |c.b.r.slots| == old(|c.b.r.slots|) && Housed(c.active, refs, c.round)
      invariant Punctual(c.finished) && Eager(c.active, c.finished, pending, c.capacity, c.round)
      invariant Books(c.active, c.finished, admitted, pending, sorted)
      invariant c.correct == (old(c.correct) && AllFirstOk(c.b.r.single, c.b.r.batch, admitted))
      invariant busy <= c.round <= busy + MaxArrival(requests)
      invariant busy + Work(c.active) + NeedOf(pending) <= NeedOf(requests)
      decreases MAX_ROUNDS - c.round
    {
      BooksWithin(c.active, c.finished, admitted, pending, sorted, requests);
      label before:
      var admit, rest := AdmitEligible(c, pending, refs, diags, requests);
      BooksAdmit(old@before(c.active), c.active, c.finished, admitted, admit, rest, sorted);
      NeedAppend(admit, rest);
      FirstOkAppend(c.b.r.single, c.b.r.batch, admitted, admit);
      admitted, pending := admitted + admit, rest;
      if c.active == [] {
        IdleStep(c, refs, pending, admitted, sorted, requests);
      } else {
        BusyStep(c, refs, pending, admitted, sorted);
        busy := busy + 1;
      }
    }
    left := pending;
    BooksMean(c.active, c.finished, admitted, left, sorted);
  }

  lemma NobodyYet(single: Net, batch: Net)
    ensures AllFirstOk(single, batch, [])
  {
  }

  lemma RunStarts(sorted: seq<Request>, refs: map<nat, nat>, active: seq<Active>, finished: seq<Finished>, round: nat)
    requires active == [] && finished == []
    ensures Housed(active, refs, round) && Punctual(finished) && Books(active, finished, [], sorted, sorted)
    ensures Work(active) == 0
  {
    assert [] + sorted == sorted;
  }

  lemma BooksMean(active: seq<Active>, finished: seq<Finished>, admitted: seq<Request>, pending: seq<Request>,
        sorted: seq<Request>)
    requires Books(active, finished, admitted, pending, sorted)
    ensures admitted + pending == sorted
    ensures multiset(RequestsOf(active)) + multiset(DoneOf(finished)) == multiset(admitted)
  {
  }

  /** Nobody is here yet: only the round counter moves. */
  method IdleStep(c: ServingCore, refs: map<nat, nat>, pending: seq<Request>, ghost admitted: seq<Request>,
        ghost sorted: seq<Request>, ghost whole: seq<Request>)
    requires c.Valid() && c.active == [] && pending != [] && Housed(c.active, refs, c.round)
    requires c.free == [] || forall i | 0 <= i < |pending| :: pending[i].arrival > c.round
    requires Books(c.active, c.finished, admitted, pending, sorted) && multiset(sorted) == multiset(whole)
    requires Eager(c.active, c.finished, pending, c.capacity, c.round)
    modifies c`round
    ensures c.Valid() && c.round == old(c.round) + 1 <= MaxArrival(whole) && Housed(c.active, refs, c.round)
    ensures Eager(c.active, c.finished, pending, c.capacity, c.round)
  {
    hide Sound, AllServed, LogIsTrue, Partitioned, Runner.Valid, MaxArrival, Housed, RequestsOf, DoneOf, Told,
         Attended, EntryBook, Eager;
    IdleMeansEarly(c.free, c.capacity, c.round, pending, admitted, whole);
    HousedLater(c.active, refs, c.round);
    CoreHasFree(c);
    AdmittedBefore(c.seen, c.active, c.finished, c.round, c.b.r.spec);
    EagerIdle(c.finished, pending, c.capacity, c.round);
    ToldLater(c.seen, c.active, c.finished, c.round, c.b.r.spec);
    AttendedIdle(c.log, c.seen, c.finished, c.round);
    EntryBookLater(c.entered, c.active, c.finished, c.round);
    c.round := c.round + 1;
  }

  /** Serve one round; the books stay balanced. */
  method BusyStep(c: ServingCore, refs: map<nat, nat>, pending: seq<Request>, ghost admitted: seq<Request>,
        ghost sorted: seq<Request>)
    requires c.Valid() && c.active != [] && Housed(c.active, refs, c.round) && Punctual(c.finished)
    requires Books(c.active, c.finished, admitted, pending, sorted)
    requires Eager(c.active, c.finished, pending, c.capacity, c.round)
    requires c.free == [] || forall i | 0 <= i < |pending| :: pending[i].arrival > c.round
    modifies c, c.b.r
    ensures c.Valid() && |c.b.r.slots| == old(|c.b.r.slots|) && c.round == old(c.round) + 1
    ensures Housed(c.active, refs, c.round) && Punctual(c.finished)
    ensures Books(c.active, c.finished, admitted, pending, sorted)
    ensures Work(c.active) + 1 <= old(Work(c.active)) && c.correct == old(c.correct)
    ensures Eager(c.active, c.finished, pending, c.capacity, c.round)
  {
    hide RequestsOf, DoneOf, Work, Sound, AllServed, LogIsTrue, Partitioned, Runner.Valid, Still, Ended, DoneAll,
         Punctual, Housed, Stepped, StampedAt, Told, Attended, EntryBook, Eager, Present;
    AdmittedBefore(c.seen, c.active, c.finished, c.round, c.b.r.spec);
    ToldPresent(c.seen, c.active, c.finished, c.round, c.b.r.spec);
    if c.free == [] {
      FullWhenNoneFree(c.free, c.active, c.capacity);
    }
    label before:
    var rows;
    ghost var sights, updated;
    rows, sights, updated := c.ServeRound();
    HousedStepped(old@before(c.active), updated, sights, c.b.r.spec, refs, old@before(c.round));
    PunctualAppend(old@before(c.finished), DoneAll(Ended(updated), old@before(c.round)));
    EagerStep(old@before(c.active), updated, old@before(c.finished), sights, c.b.r.spec, pending, c.capacity,
              old@before(c.round));
  }

  /** With models that agree, nothing a run does is ever flagged. */
  lemma SameModelsNeverFlag(c: ServingCore)
    requires c.Valid() && c.b.r.single == c.b.r.batch
    ensures c.correct
    ensures forall i | 0 <= i < |c.log| :: c.log[i].report.exact && c.log[i].report.ok && c.log[i].recent == None
  {
    hide Judge, Next, HistoryOf, Tail;
    forall i | 0 <= i < |c.log| ensures c.log[i].report.exact && c.log[i].report.ok && c.log[i].recent == None {
      assert RowIsTrue(c.b.r.single, c.b.r.batch, c.log[i], c.seen[i]);
      ExactIsOk(c.b.r.single, HistoryOf(Moved(c.seen[i].before, c.seen[i].round)));
    }
  }

  /** On the shipped requests the round cap is never reached, whatever is drafted or accepted. */
  lemma ShippedRunFits(r: seq<Request>)
    requires |r| == 6
    requires r[0].arrival == 0 && r[1].arrival == 0 && r[2].arrival == 4 && r[3].arrival == 4 && r[4].arrival == 9
    requires r[5].arrival == 11
    requires r[0].maxTokens == 40 && r[1].maxTokens == 44 && r[2].maxTokens == 40
    requires r[3].maxTokens == 48 && r[4].maxTokens == 36 && r[5].maxTokens == 44
    ensures MaxArrival(r) + NeedOf(r) == 263 < MAX_ROUNDS
  {
    hide MaxArrival;
    assert NeedOf(r[..0]) == 0;
    assert r[..1][..0] == r[..0] && r[..2][..1] == r[..1] && r[..3][..2] == r[..2];
    assert r[..4][..3] == r[..3] && r[..5][..4] == r[..4];
    assert NeedOf(r[..1]) == 40;
    assert NeedOf(r[..2]) == 84;
    assert NeedOf(r[..3]) == 124;
    assert NeedOf(r[..4]) == 172;
    assert NeedOf(r[..5]) == 208;
  }
}
