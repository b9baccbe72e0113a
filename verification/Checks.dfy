/**
  The two drivers' checks from start to verdict, and what passing says about what was served.
 */
module Checks {
  import opened AsyncArrivals
  import opened Backends
  import opened Ledgers
  import opened Network
  import opened Occupancies
  import opened Rosters
  import opened Runners
  import opened ServingCores
  import opened Sorting
  import opened SustainedRuns
  import opened Verdicts

  // ---------------------------------------------------------------------------
  // What passing says about what was served.
  // ---------------------------------------------------------------------------

  /** Every finished request is recorded in full: each of its tokens was committed by a round
      with its own true row in the log. */
  ghost predicate AllRecorded(single: Net, batch: Net, spec: nat, log: seq<Row>, finished: seq<Finished>) {
    forall k | 0 <= k < |finished| :: Recorded(single, batch, spec, log, finished[k])
  }

  /** The round that committed the output's p-th token has an excused row. */
  ghost predicate TokenVouched(single: Net, batch: Net, spec: nat, log: seq<Row>, f: Finished, p: nat, decode: Decoder)
  {
    exists i, m | 0 <= i < |log| && p < m <= p + spec + 1 && m <= |f.tokens| ::
      JudgedAt(single, batch, log[i], f, m) && RowExcused(log, i, decode)
  }

  ghost predicate AllVouched(single: Net, batch: Net, spec: nat, log: seq<Row>, finished: seq<Finished>,
        decode: Decoder)
  {
    forall k, p | 0 <= k < |finished| && 0 <= p < |finished[k].tokens| ::
      TokenVouched(single, batch, spec, log, finished[k], p, decode)
  }

  lemma RunIsRecorded(c: ServingCore)
    requires c.Valid()
    ensures AllRecorded(c.b.r.single, c.b.r.batch, c.b.r.spec, c.log, c.finished)
  {
    hide Runner.Valid, Sound, AllServed, Partitioned, LogIsTrue, Told, Recorded, Attended, EntryBook;
    forall k | 0 <= k < |c.finished| ensures Recorded(c.b.r.single, c.b.r.batch, c.b.r.spec, c.log, c.finished[k]) {
      FinishedIsRecorded(c.b.r.single, c.b.r.batch, c.b.r.spec, c.log, c.seen, c.active, c.finished, c.round, k);
    }
  }

  /** With the log excused, every token that was served was committed by a round that was within
      tolerance or forgiven. */
  lemma ExcusedVouches(single: Net, batch: Net, spec: nat, log: seq<Row>, finished: seq<Finished>, decode: Decoder)
    requires AllRecorded(single, batch, spec, log, finished) && Excused(log, decode)
    ensures AllVouched(single, batch, spec, log, finished, decode)
  {
    hide JudgedAt, RowExcused, Excused;
    forall k, p | 0 <= k < |finished| && 0 <= p < |finished[k].tokens|
      ensures TokenVouched(single, batch, spec, log, finished[k], p, decode)
    {
      assert Recorded(single, batch, spec, log, finished[k]);
      assert TokenRecorded(single, batch, spec, log, finished[k], p);
      var i, m :| 0 <= i < |log| && p < m <= p + spec + 1 && m <= |finished[k].tokens| &&
                  JudgedAt(single, batch, log[i], finished[k], m);
      ExcusedRow(log, decode, i);
    }
  }

  // ---------------------------------------------------------------------------
  // The checks.
  // ---------------------------------------------------------------------------

  /** The check passes exactly when everyone finished before the round cap, the reference
      accepted every first token, and every round of every request was within tolerance or
      forgiven.  Whoever finished was punctual and is recorded in full; and passing vouches for
      every token that was served. */
  method AsyncArrivalCheck(c: ServingCore, requests: seq<Request>, refs: map<nat, nat>, diags: map<nat, nat>,
        decode: Decoder)
    returns (passed: bool, benign: seq<Benign>, failures: seq<Failure>, ghost left: seq<Request>)
    requires c.Valid() && c.active == [] && c.finished == [] && c.round == 0 && c.correct
    requires Playable(requests, refs, diags, c.capacity, |c.b.r.slots|)
    modifies c, c.b.r
    ensures c.Valid() && Punctual(c.finished)
    ensures multiset(RequestsOf(c.active)) + multiset(DoneOf(c.finished)) + multiset(left) == multiset(requests)
    ensures Eager(c.active, c.finished, left, c.capacity, c.round)
    ensures AllRecorded(c.b.r.single, c.b.r.batch, c.b.r.spec, c.log, c.finished)
    ensures forall q: nat :: RequestVerdict(c.log, decode, benign, failures, q)
    ensures passed <==>
            && c.round < MAX_ROUNDS && multiset(DoneOf(c.finished)) == multiset(requests)
            && AllFirstOk(c.b.r.single, c.b.r.batch, requests) && Excused(c.log, decode)
    ensures passed ==> AllVouched(c.b.r.single, c.b.r.batch, c.b.r.spec, c.log, c.finished, decode)
    ensures MaxArrival(requests) + NeedOf(requests) < MAX_ROUNDS ==>
              (passed <==> AllFirstOk(c.b.r.single, c.b.r.batch, requests) && Excused(c.log, decode))
    ensures c.b.r.single == c.b.r.batch && MaxArrival(requests) + NeedOf(requests) < MAX_ROUNDS ==> passed
  {
    hide Runner.Valid, Sound, AllServed, Partitioned, LogIsTrue, RequestVerdict, Playable, DoneOf, RequestsOf,
         MaxArrival, NeedOf, WithKey, Punctual, RowIsTrue, Told, AllFirstOk, Excused, AllRecorded, AllVouched,
         Attended, EntryBook, Eager;
    var admitted, rest := RunAsyncArrival(c, requests, refs, diags);
    left := rest;
    benign, failures := ClassifyLog(c.log, decode);
    passed := c.correct && failures == [] && |c.finished| == |requests| && c.round < MAX_ROUNDS;
    NothingFailsIff(c.log, decode, benign, failures);
    RunIsRecorded(c);
    CountFinished(c.active, c.finished, admitted, left, requests);
    if left == [] {
      FirstOkPermutes(c.b.r.single, c.b.r.batch, admitted, requests);
    }
    if c.b.r.single == c.b.r.batch {
      SameModelsNeverFlag(c);
      QuietIsExcused(c.log, decode);
    }
    if passed {
      ExcusedVouches(c.b.r.single, c.b.r.batch, c.b.r.spec, c.log, c.finished, decode);
    }
  }

  /** The clock passes the safety valve early enough for the passes allowed. */
  ghost predicate Patient(pool: seq<Request>, clock: nat -> nat, duration: nat, passes: nat) {
    NeedOf(pool) < ROUND_CAP && exists m: nat :: clock(m) > duration + VALVE_SLACK && passes > m + NeedOf(pool)
  }

  /** The sustained check, told from the clock alone.  On a pool asking for fewer tokens than the
      round cap, exactly the requests that had arrived by the last pass before closing are
      served; the loop drains if that is the whole pool and otherwise stops at the safety valve;
      and either way the check passes exactly when the reference accepted every first token
      served and every round was within tolerance or forgiven. */
  method SustainedCheck(c: ServingCore, pool: seq<Request>, clock: nat -> nat, duration: nat, passes: nat,
        decode: Decoder)
    returns (passed: bool, exit: Exit, count: nat, failures: seq<Failure>, ghost served: seq<nat>)
    requires c.Valid() && c.active == [] && c.finished == [] && c.round == 0 && c.correct
    requires 3 * c.capacity <= |c.b.r.slots|
    requires forall i | 0 <= i < |pool| :: |pool[i].prompt| >= 2
    requires Nondecreasing(clock)
    modifies c, c.b.r
    ensures c.Valid() && count <= |pool|
    ensures AllRecorded(c.b.r.single, c.b.r.batch, c.b.r.spec, c.log, c.finished)
    ensures |served| == c.round
    ensures Timely(c.entered, c.active, c.finished, pool, clock, duration, c.capacity, count, served, passes)
    ensures passed ==> multiset(DoneOf(c.finished)) == multiset(pool[..count])
    ensures passed ==> AllVouched(c.b.r.single, c.b.r.batch, c.b.r.spec, c.log, c.finished, decode)
    ensures exit != Looping ==>
              (passed <==> && exit != RoundCap && AllFirstOk(c.b.r.single, c.b.r.batch, pool[..count])
                           && Excused(c.log, decode))
    ensures Patient(pool, clock, duration, passes) ==>
              && exit == (if ArrivedBy(pool, clock, duration, |pool|) then Drained else Valve)
              && (forall k | 0 <= k <= |pool| :: ArrivedBy(pool, clock, duration, k) <==> k <= count)
              && multiset(DoneOf(c.finished)) == multiset(pool[..count])
              && (c.b.r.single == c.b.r.batch ==> passed)
  {
    hide Runner.Valid, Sound, AllServed, Partitioned, LogIsTrue, RequestVerdict, DoneOf, RequestsOf, NeedOf,
         WithKey, RowIsTrue, PoolBooks, Told, AllFirstOk, Excused, AllRecorded, AllVouched, ArrivedBy, Attended,
         EntryBook, Timely;
    var waiting, next, benign;
    exit, count, waiting, next, served := RunSustained(c, pool, clock, duration, passes);
    benign, failures := ClassifyLog(c.log, decode);
    passed := c.correct && failures == [] && c.round < ROUND_CAP && c.active == [];
    NothingFailsIff(c.log, decode, benign, failures);
    RunIsRecorded(c);
    if c.b.r.single == c.b.r.batch {
      SameModelsNeverFlag(c);
      QuietIsExcused(c.log, decode);
    }
    if passed {
      ExcusedVouches(c.b.r.single, c.b.r.batch, c.b.r.spec, c.log, c.finished, decode);
    }
  }

  /** Two requests, the second due just when the driver closes. */
  function LatePool(): seq<Request> {
    [Request(0, 0, [0, 0], 1), Request(1, 5, [0, 0], 1)]
  }

  lemma LatePoolArrives(clock: nat -> nat)
    requires forall n: nat :: clock(n) == n
    ensures Patient(LatePool(), clock, 5, 2_000_000)
    ensures ArrivedBy(LatePool(), clock, 5, 1) && !ArrivedBy(LatePool(), clock, 5, 2)
  {
    var pool := LatePool();
    assert pool[..1] == [pool[0]] && pool[..1][..0] == [];
    assert NeedOf(pool[..0]) == 0;
    assert NeedOf(pool[..1]) == 1 && NeedOf(pool) == 2;
    assert clock(0) == 0 && clock(1_800_006) == 1_800_006;
  }

  lemma OnlyFirst(finished: seq<Finished>, pool: seq<Request>)
    requires pool != [] && multiset(DoneOf(finished)) == multiset(pool[..1])
    ensures DoneOf(finished) == [pool[0]]
  {
    hide DoneOf;
    var done := DoneOf(finished);
    assert pool[..1] == [pool[0]];
    assert |multiset(done)| == |done| && |multiset(pool[..1])| == 1;
    assert done[0] in multiset(done);
  }

  /** A run that passes with a request left in the pool, whatever the model. */
  method PassesWithLeftOver(net: Net, decode: Decoder) returns (passed: bool, exit: Exit, finished: seq<Finished>)
    ensures passed && exit == Valve && |LatePool()| == 2 && DoneOf(finished) == [LatePool()[0]]
  {
    hide Sound, AllServed, Partitioned, LogIsTrue, DoneOf, Told, AllFirstOk, Excused, AllRecorded, AllVouched,
         ArrivedBy, Patient, Attended, EntryBook, Timely;
    var clock := (n: nat) => n;
    var r := new Runner(net, net, 1, 3);
    var b := new Backend(r);
    var c := new ServingCore(b, 1);
    LatePoolArrives(clock);
    var count, failures;
    ghost var served;
    passed, exit, count, failures, served := SustainedCheck(c, LatePool(), clock, 5, 2_000_000, decode);
    finished := c.finished;
    OnlyFirst(finished, LatePool());
  }

  /** The check as it is launched: a new runner is warmed up on slot 0, which is then released
      with its tensors as they are, and the requests are served on top of that. */
  method RunOnce(single: Net, batch: Net, spec: nat, numSlots: nat, capacity: nat, warm: seq<Token>,
        requests: seq<Request>, refs: map<nat, nat>, diags: map<nat, nat>, decode: Decoder)
    returns (passed: bool, finished: seq<Finished>, log: seq<Row>, ghost rounds: nat)
    requires 1 <= spec && 1 <= capacity <= numSlots && single.vocab == batch.vocab && warm != []
    requires Playable(requests, refs, diags, capacity, numSlots)
    ensures passed ==> multiset(DoneOf(finished)) == multiset(requests)
    ensures passed ==>
              && Eager([], finished, [], capacity, rounds)
              && forall i | 0 <= i < |finished| :: finished[i].round < rounds
    ensures passed ==> AllFirstOk(single, batch, requests) && AllVouched(single, batch, spec, log, finished, decode)
    ensures AllRecorded(single, batch, spec, log, finished) && AllServed(batch, spec, finished)
    ensures MaxArrival(requests) + NeedOf(requests) < MAX_ROUNDS ==>
              (passed <==> AllFirstOk(single, batch, requests) && Excused(log, decode))
    ensures single == batch && MaxArrival(requests) + NeedOf(requests) < MAX_ROUNDS ==> passed
  {
    hide Playable, DoneOf, MaxArrival, NeedOf, AllServed, Sound, Partitioned, LogIsTrue, Told, AllFirstOk,
         Excused, AllRecorded, AllVouched, Attended, EntryBook, Eager;
    var r := new Runner(single, batch, spec, numSlots);
    var next := r.Prefill(0, warm);
    r.ResetSlot(0);
    var b := new Backend(r);
    var c := new ServingCore(b, capacity);
    var benign, failures;
    ghost var left;
    passed, benign, failures, left := AsyncArrivalCheck(c, requests, refs, diags, decode);
    finished, log, rounds := c.finished, c.log, c.round;
    DoneByNow(c.seen, c.active, c.finished, c.round, c.b.r.spec);
    if passed {
      NobodyLeft(c.active, c.finished, left, requests);
    }
  }

  lemma {:induction false} DoneByNow(seen: seq<Sighting>, active: seq<Active>, finished: seq<Finished>, round: nat,
        spec: nat)
    requires Told(seen, active, finished, round, spec)
    ensures forall i | 0 <= i < |finished| :: finished[i].round < round
  {
    hide Said;
  }

  lemma {:induction false} NobodyLeft(active: seq<Active>, finished: seq<Finished>, left: seq<Request>,
        requests: seq<Request>)
    requires multiset(RequestsOf(active)) + multiset(DoneOf(finished)) + multiset(left) == multiset(requests)
    requires multiset(DoneOf(finished)) == multiset(requests)
    ensures active == [] && left == []
  {
    hide RequestsOf, DoneOf;
    var here := multiset(RequestsOf(active));
    assert |here| == |active| && |multiset(left)| == |left|;
    assert |here + multiset(DoneOf(finished)) + multiset(left)| == |here| + |multiset(requests)| + |left|;
  }

  lemma CountFinished(active: seq<Active>, finished: seq<Finished>, admitted: seq<Request>, left: seq<Request>,
        requests: seq<Request>)
    requires multiset(admitted + left) == multiset(requests)
    requires multiset(RequestsOf(active)) + multiset(DoneOf(finished)) == multiset(admitted)
    ensures |finished| == |requests| <==> active == [] && left == []
    ensures |finished| == |requests| <==> multiset(DoneOf(finished)) == multiset(requests)
    ensures left == [] ==> multiset(admitted) == multiset(requests)
  {
    hide RequestsOf, DoneOf;
    assert |multiset(admitted + left)| == |admitted| + |left| && |multiset(requests)| == |requests|;
    assert |multiset(RequestsOf(active))| == |active| && |multiset(DoneOf(finished))| == |finished|;
    assert |multiset(RequestsOf(active)) + multiset(DoneOf(finished))| == |active| + |finished|;
    assert |multiset(admitted)| == |admitted|;
    assert left == [] ==> admitted + left == admitted;
    assert active == [] ==> multiset(RequestsOf(active)) == multiset{};
  }
}
