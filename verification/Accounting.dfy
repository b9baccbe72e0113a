/**
  Token accounting of one production batch: the active set shrinks as requests reach their
  length, and the counters must add up.
 */
module Accounting {
  import opened Backends
  import opened Network
  import opened Runners
  import opened Runs
  import opened Slots
  import opened Speculation
  import opened Transcripts

  function Sum(slots: seq<nat>, count: map<nat, nat>): nat
    requires forall i | 0 <= i < |slots| :: slots[i] in count
  {
    if slots == [] then 0 else Sum(slots[..|slots| - 1], count) + count[slots[|slots| - 1]]
  }

  function Least(maxTokens: nat): nat {
    if maxTokens == 0 then 1 else maxTokens
  }

  function Gap(maxTokens: nat, n: nat): nat {
    if n < Least(maxTokens) then Least(maxTokens) - n else 0
  }

  /** Tokens still owed over all slots. */
  function Todo(slots: seq<nat>, count: map<nat, nat>, maxTokens: nat): nat
    requires forall i | 0 <= i < |slots| :: slots[i] in count
  {
    if slots == [] then 0 else Todo(slots[..|slots| - 1], count, maxTokens) + Gap(maxTokens, count[slots[|slots| - 1]])
  }

  lemma {:induction false} Unaffected(slots: seq<nat>, count: map<nat, nat>, s: nat, v: nat, maxTokens: nat)
    requires s !in slots && forall i | 0 <= i < |slots| :: slots[i] in count
    ensures Sum(slots, count[s := v]) == Sum(slots, count)
    ensures Todo(slots, count[s := v], maxTokens) == Todo(slots, count, maxTokens)
  {
    if slots != [] {
      Unaffected(slots[..|slots| - 1], count, s, v, maxTokens);
    }
  }

  lemma {:induction false} Recount(slots: seq<nat>, count: map<nat, nat>, p: nat, v: nat, maxTokens: nat)
    requires Distinct(slots) && p < |slots| && forall i | 0 <= i < |slots| :: slots[i] in count
    ensures Sum(slots, count[slots[p] := v]) + count[slots[p]] == Sum(slots, count) + v
    ensures Todo(slots, count[slots[p] := v], maxTokens) + Gap(maxTokens, count[slots[p]])
         == Todo(slots, count, maxTokens) + Gap(maxTokens, v)
  {
    var n := |slots| - 1;
    var front := slots[..n];
    if p == n {
      Unaffected(front, count, slots[n], v, maxTokens);
    } else {
      assert front[p] == slots[p];
      Recount(front, count, p, v, maxTokens);
    }
  }

  datatype Counters = Counters(accepted: nat, draftTokens: nat, draftRounds: nat)

  /** One slot's round. */
  datatype Entry = Entry(slot: nat, round: Round)

  /** Drafts accepted over a whole record. */
  ghost function Accepted(log: seq<Entry>): nat {
    if log == [] then 0 else Accepted(log[..|log| - 1]) + log[|log| - 1].round.decision.accepted
  }

  /** The rounds of one slot, in order. */
  ghost function RoundsOf(log: seq<Entry>, s: nat): seq<Round> {
    if log == [] then []
    else
      var e := log[|log| - 1];
      RoundsOf(log[..|log| - 1], s) + if e.slot == s then [e.round] else []
  }

  ghost function CommittedIn(rounds: seq<Round>): nat {
    if rounds == [] then 0 else CommittedIn(rounds[..|rounds| - 1]) + |rounds[|rounds| - 1].decision.committed|
  }

  lemma LogSnoc(log: seq<Entry>, s: nat, round: Round, p: nat)
    ensures Accepted(log + [Entry(s, round)]) == Accepted(log) + round.decision.accepted
    ensures RoundsOf(log + [Entry(s, round)], p) == RoundsOf(log, p) + if p == s then [round] else []
  {
    assert (log + [Entry(s, round)])[..|log|] == log;
  }

  lemma CommittedSnoc(rounds: seq<Round>, round: Round)
    ensures CommittedIn(rounds + [round]) == CommittedIn(rounds) + |round.decision.committed|
  {
    assert (rounds + [round])[..|rounds|] == rounds;
  }

  /** The books agree with the record: a draft round for every entry, k drafts each, the accepted
      drafts its decisions accepted, and for every slot the tokens its own decisions committed.  So
      the tokens committed altogether are the accepted drafts and one more for every round. */
  ghost predicate Balanced(slots: seq<nat>, count: map<nat, nat>, c: Counters, k: nat, log: seq<Entry>) {
    && (forall i | 0 <= i < |slots| :: slots[i] in count && count[slots[i]] == CommittedIn(RoundsOf(log, slots[i])))
    && c.draftRounds == |log| && c.draftTokens == k * |log| && c.accepted == Accepted(log)
    && Sum(slots, count) == c.accepted + c.draftRounds && c.accepted <= c.draftTokens
  }

  lemma GapShrinks(maxTokens: nat, n: nat, m: nat)
    requires n < m
    ensures Gap(maxTokens, n) > 0 ==> Gap(maxTokens, m) < Gap(maxTokens, n)
  {
  }

  /** Count one slot's round. */
  method CountOne(slots: seq<nat>, count: map<nat, nat>, c: Counters, k: nat, s: nat, round: Round,
        ghost maxTokens: nat, ghost log: seq<Entry>)
    returns (count': map<nat, nat>, c': Counters)
    requires Distinct(slots) && Balanced(slots, count, c, k, log) && s in slots && round.decision.accepted <= k
    ensures Balanced(slots, count', c', k, log + [Entry(s, round)])
    ensures s in count && count' == count[s := count[s] + |round.decision.committed|]
    ensures Gap(maxTokens, count[s]) > 0 ==> Todo(slots, count', maxTokens) < Todo(slots, count, maxTokens)
  {
    hide Sum, Todo, Gap, Accepted, RoundsOf, CommittedIn;
    var d := round.decision;
    ghost var p :| 0 <= p < |slots| && slots[p] == s;
    GapShrinks(maxTokens, count[s], count[s] + |d.committed|);
    Recount(slots, count, p, count[s] + |d.committed|, maxTokens);
    forall i | 0 <= i < |slots|
      ensures CommittedIn(RoundsOf(log + [Entry(s, round)], slots[i]))
           == CommittedIn(RoundsOf(log, slots[i])) + if slots[i] == s then |d.committed| else 0
    {
      LogSnoc(log, s, round, slots[i]);
      CommittedSnoc(RoundsOf(log, slots[i]), round);
      assert RoundsOf(log, slots[i]) + [] == RoundsOf(log, slots[i]);
    }
    LogSnoc(log, s, round, s);
    count' := count[s := count[s] + |d.committed|];
    c' := Counters(c.accepted + d.accepted, c.draftTokens + k, c.draftRounds + 1);
    assert k * (|log| + 1) == k * |log| + k;
  }

  /** Every slot has all its tokens or is still active; none overshoots by more than a round. */
  ghost predicate Progress(slots: seq<nat>, active: seq<nat>, count: map<nat, nat>, maxTokens: nat, k: nat) {
    forall i | 0 <= i < |slots| ::
      && slots[i] in count
      && if slots[i] in active then Gap(maxTokens, count[slots[i]]) > 0
         else Least(maxTokens) <= count[slots[i]] <= Least(maxTokens) + k
  }

  /** The slots still short of their length, in order. */
  function Short(active: seq<nat>, count: map<nat, nat>, maxTokens: nat): (s: seq<nat>)
    requires forall i | 0 <= i < |active| :: active[i] in count
  {
    if active == [] then []
    else
      var s := active[|active| - 1];
      Short(active[..|active| - 1], count, maxTokens) + if count[s] < maxTokens then [s] else []
  }

  lemma {:induction false} ShortKnows(active: seq<nat>, count: map<nat, nat>, maxTokens: nat)
    requires Distinct(active) && forall i | 0 <= i < |active| :: active[i] in count
    ensures Distinct(Short(active, count, maxTokens))
    ensures forall s :: s in Short(active, count, maxTokens) <==> s in active && count[s] < maxTokens
  {
    if active != [] {
      var front, s := active[..|active| - 1], active[|active| - 1];
      ShortKnows(front, count, maxTokens);
      assert active == front + [s] && s !in front;
    }
  }

  /** A round of every active slot was added to the record. */
  ghost predicate Logged(log: seq<Entry>, log': seq<Entry>, active: seq<nat>, rounds: map<nat, Round>) {
    forall s :: (s in active ==> s in rounds) &&
      RoundsOf(log', s) == RoundsOf(log, s) + if s in active && s in rounds then [rounds[s]] else []
  }

  lemma {:induction false} LoggedNone(log: seq<Entry>, rounds: map<nat, Round>)
    ensures Logged(log, log, [], rounds)
  {
    forall s: nat ensures RoundsOf(log, s) == RoundsOf(log, s) + [] {}
  }

  lemma {:induction false} LoggedSnoc(log: seq<Entry>, mid: seq<Entry>, active: seq<nat>, s: nat,
        rounds: map<nat, Round>)
    requires Logged(log, mid, active, rounds) && s !in active && s in rounds
    ensures Logged(log, mid + [Entry(s, rounds[s])], active + [s], rounds)
  {
    hide RoundsOf;
    forall p: nat
      ensures RoundsOf(mid + [Entry(s, rounds[s])], p)
           == RoundsOf(log, p) + if p in active + [s] && p in rounds then [rounds[p]] else []
    {
      LogSnoc(mid, s, rounds[s], p);
    }
  }

  /** Count every active slot's round. */
  method CountRound(slots: seq<nat>, active: seq<nat>, count: map<nat, nat>, c: Counters, k: nat,
        rounds: map<nat, Round>, ghost maxTokens: nat, ghost log: seq<Entry>)
    returns (count': map<nat, nat>, c': Counters, ghost log': seq<Entry>)
    requires Distinct(slots) && Distinct(active) && active != [] && Balanced(slots, count, c, k, log)
    requires forall i | 0 <= i < |active| ::
               && active[i] in slots && active[i] in rounds && rounds[active[i]].decision.accepted <= k
               && active[i] in count && Gap(maxTokens, count[active[i]]) > 0
    requires forall i | 0 <= i < |slots| :: slots[i] in count
    ensures Balanced(slots, count', c', k, log') && Logged(log, log', active, rounds)
    ensures |log'| == |log| + |active|
    ensures forall s | s in count ::
              s in count' && count'[s] == count[s] + if s in active then |rounds[s].decision.committed| else 0
    ensures (forall i | 0 <= i < |slots| :: slots[i] in count')
    ensures Todo(slots, count', maxTokens) < Todo(slots, count, maxTokens)
  {
    hide Sum, Todo, Balanced, Logged;
    count', c', log' := count, c, log;
    LoggedNone(log, rounds);
    assert active[..0] == [];
    for i := 0 to |active|
      invariant Balanced(slots, count', c', k, log') && forall j | 0 <= j < |slots| :: slots[j] in count'
      invariant Logged(log, log', active[..i], rounds) && |log'| == |log| + i
      invariant forall s | s in count ::
                  s in count' && count'[s] == count[s] + if s in active[..i] then |rounds[s].decision.committed| else 0
      invariant Todo(slots, count', maxTokens) <= Todo(slots, count, maxTokens)
      invariant i > 0 ==> Todo(slots, count', maxTokens) < Todo(slots, count, maxTokens)
    {
      var s := active[i];
      assert s !in active[..i] && active[..i + 1] == active[..i] + [s];
      count', c' := CountOne(slots, count', c', k, s, rounds[s], maxTokens, log');
      LoggedSnoc(log, log', active[..i], s, rounds);
      log' := log' + [Entry(s, rounds[s])];
      BalancedKnows(slots, count', c', k, log');
    }
    assert active[..|active|] == active;
  }

  /** Drop whoever has reached the length. */
  method KeepShort(active: seq<nat>, count: map<nat, nat>, maxTokens: nat) returns (still: seq<nat>)
    requires forall i | 0 <= i < |active| :: active[i] in count
    ensures still == Short(active, count, maxTokens)
  {
    still := [];
    for i := 0 to |active|
      invariant still == Short(active[..i], count, maxTokens)
    {
      assert active[..i + 1][..i] == active[..i];
      if count[active[i]] < maxTokens {
        still := still + [active[i]];
      }
    }
    assert active[..|active|] == active;
  }

  /** Count a whole round and keep those still short of their length, in order. */
  method Tally(slots: seq<nat>, active: seq<nat>, count: map<nat, nat>, c: Counters, k: nat, rounds: map<nat, Round>,
        maxTokens: nat, ghost log: seq<Entry>)
    returns (count': map<nat, nat>, c': Counters, still: seq<nat>, ghost log': seq<Entry>)
    requires Distinct(slots) && Distinct(active) && active != [] && Balanced(slots, count, c, k, log)
    requires Progress(slots, active, count, maxTokens, k)
    requires forall i | 0 <= i < |active| ::
               active[i] in slots && active[i] in rounds && rounds[active[i]].decision.accepted <= k
    ensures Balanced(slots, count', c', k, log') && Progress(slots, still, count', maxTokens, k) && Distinct(still)
    ensures Logged(log, log', active, rounds) && |log'| == |log| + |active|
    ensures (forall i | 0 <= i < |active| :: active[i] in count') && still == Short(active, count', maxTokens)
    ensures forall i | 0 <= i < |still| :: still[i] in active
    ensures forall s | s in count ::
              s in count' && count'[s] == count[s] + if s in active then |rounds[s].decision.committed| else 0
    ensures Todo(slots, count', maxTokens) < Todo(slots, count, maxTokens)
  {
    hide Sum, Todo, Balanced, Short, Logged;
    BalancedKnows(slots, count, c, k, log);
    count', c', log' := CountRound(slots, active, count, c, k, rounds, maxTokens, log);
    still := KeepShort(active, count', maxTokens);
    ShortKnows(active, count', maxTokens);
  }

  lemma BalancedKnows(slots: seq<nat>, count: map<nat, nat>, c: Counters, k: nat, log: seq<Entry>)
    requires Balanced(slots, count, c, k, log)
    ensures forall i | 0 <= i < |slots| :: slots[i] in count
  {
  }

  /** Each slot's length is its prompt plus what was committed for it. */
  ghost predicate Measured(all: seq<Slot>, slots: seq<nat>, asked: map<nat, seq<Token>>, count: map<nat, nat>) {
    forall i | 0 <= i < |slots| ::
      && slots[i] in count && slots[i] in asked && slots[i] < |all|
      && all[slots[i]].kvLen == |asked[slots[i]]| + count[slots[i]]
  }

  /** What is counted for an active slot is what its book says it put out after the first token. */
  ghost predicate Booked(active: seq<nat>, outs: map<nat, seq<Token>>, count: map<nat, nat>) {
    forall i | 0 <= i < |active| :: active[i] in outs && active[i] in count && |outs[active[i]]| == count[active[i]] + 1
  }

  /** Nobody was given a round they did not need: all but the last left the slot short. */
  ghost predicate Needed(slots: seq<nat>, log: seq<Entry>, maxTokens: nat) {
    forall i | 0 <= i < |slots| ::
      var rounds := RoundsOf(log, slots[i]);
      rounds != [] ==> CommittedIn(rounds[..|rounds| - 1]) < Least(maxTokens)
  }

  lemma {:induction false} NeededStep(slots: seq<nat>, active: seq<nat>, count: map<nat, nat>, c: Counters, k: nat,
        rounds: map<nat, Round>, log: seq<Entry>, log': seq<Entry>, maxTokens: nat)
    requires Needed(slots, log, maxTokens) && Balanced(slots, count, c, k, log)
    requires Progress(slots, active, count, maxTokens, k) && Logged(log, log', active, rounds)
    ensures Needed(slots, log', maxTokens)
  {
    hide RoundsOf, CommittedIn, Sum, Accepted;
    forall i | 0 <= i < |slots| && RoundsOf(log', slots[i]) != []
      ensures CommittedIn(RoundsOf(log', slots[i])[..|RoundsOf(log', slots[i])| - 1]) < Least(maxTokens)
    {
      var s, was, now := slots[i], RoundsOf(log, slots[i]), RoundsOf(log', slots[i]);
      if s in active {
        assert now == was + [rounds[s]] && now[..|now| - 1] == was;
      } else {
        assert now == was;
      }
    }
  }

  /** Every slot's entries are its own transcript over the model's own drafts. */
  ghost predicate Spoken(net: Net, slots: seq<nat>, asked: map<nat, seq<Token>>, log: seq<Entry>, k: nat) {
    forall i | 0 <= i < |slots| ::
      slots[i] in asked && Transcript(net, asked[slots[i]], RoundsOf(log, slots[i]), Unchanged, i, k)
  }

  /** The book of an active slot holds what its entries committed. */
  ghost predicate BookSays(net: Net, active: seq<nat>, asked: map<nat, seq<Token>>, outs: map<nat, seq<Token>>,
        log: seq<Entry>)
  {
    forall i | 0 <= i < |active| ::
      && active[i] in asked && asked[active[i]] != [] && active[i] in outs
      && outs[active[i]] == Output(Next(net, asked[active[i]]), RoundsOf(log, active[i]))
  }

  method ZeroCounts(slots: seq<nat>) returns (count: map<nat, nat>)
    ensures forall i | 0 <= i < |slots| :: slots[i] in count && count[slots[i]] == 0
  {
    count := map s | s in slots :: 0;
  }

  lemma {:induction false} ZeroSum(slots: seq<nat>, count: map<nat, nat>)
    requires forall i | 0 <= i < |slots| :: slots[i] in count && count[slots[i]] == 0
    ensures Sum(slots, count) == 0
  {
    if slots != [] {
      ZeroSum(slots[..|slots| - 1], count);
    }
  }

  lemma Starts(all: seq<Slot>, net: Net, slots: seq<nat>, asked: map<nat, seq<Token>>, book: Book, count: map<nat, nat>,
        maxTokens: nat, k: nat)
    requires Covers(slots, book, asked, asked) && AllLive(net, all, false, slots, asked, book, asked, k)
    requires forall i | 0 <= i < |slots| :: |book.outs[slots[i]]| == 1 && slots[i] in count && count[slots[i]] == 0
    ensures Balanced(slots, count, Counters(0, 0, 0), k, []) && Progress(slots, slots, count, maxTokens, k)
    ensures Booked(slots, book.outs, count) && Measured(all, slots, asked, count)
    ensures Spoken(net, slots, asked, [], k) && BookSays(net, slots, asked, book.outs, [])
    ensures Needed(slots, [], maxTokens)
  {
    hide Live, Transcript, Output, Next;
    ZeroSum(slots, count);
    forall i | 0 <= i < |slots|
      ensures all[slots[i]].kvLen == |asked[slots[i]]| && asked[slots[i]] != []
      ensures Transcript(net, asked[slots[i]], RoundsOf([], slots[i]), Unchanged, i, k)
      ensures book.outs[slots[i]] == Output(Next(net, asked[slots[i]]), RoundsOf([], slots[i]))
    {
      LiveFirst(net, all[slots[i]], false, asked[slots[i]], book.outs[slots[i]], asked[slots[i]],
                book.anchors[slots[i]], book.drafts[slots[i]], k);
      TranscriptNil(net, asked[slots[i]], Unchanged, i, k);
      LiveLengths(net, all[slots[i]], false, asked[slots[i]], book.outs[slots[i]], asked[slots[i]],
                  book.anchors[slots[i]], book.drafts[slots[i]], k);
    }
  }

  /** One round of the active slots, counted. */
  method BatchRound(b: Backend, slots: seq<nat>, active: seq<nat>, book: Book, c: Counters, count: map<nat, nat>,
        maxTokens: nat, ghost asked: map<nat, seq<Token>>, ghost hs: map<nat, seq<Token>>, ghost log: seq<Entry>)
    returns (book': Book, c': Counters, count': map<nat, nat>, still: seq<nat>, ghost hs': map<nat, seq<Token>>,
             ghost log': seq<Entry>)
    requires b.r.Valid() && b.r.Known(slots) && b.r.Known(active) && active != []
    requires forall i | 0 <= i < |active| :: active[i] in slots
    requires Covers(active, book, asked, hs) && AllLive(b.r.batch, b.r.slots, false, active, asked, book, hs, b.r.spec)
    requires Balanced(slots, count, c, b.r.spec, log) && Progress(slots, active, count, maxTokens, b.r.spec)
    requires Spoken(b.r.batch, slots, asked, log, b.r.spec) && BookSays(b.r.batch, active, asked, book.outs, log)
    requires Needed(slots, log, maxTokens)
    requires Booked(active, book.outs, count) && Measured(b.r.slots, slots, asked, count)
    modifies b.r
    ensures b.r.Valid() && Untouched(old(b.r.slots), b.r.slots, active) && b.r.Known(still)
    ensures forall i | 0 <= i < |still| :: still[i] in active
    ensures Covers(still, book', asked, hs') && AllLive(b.r.batch, b.r.slots, false, still, asked, book', hs', b.r.spec)
    ensures Balanced(slots, count', c', b.r.spec, log') && Progress(slots, still, count', maxTokens, b.r.spec)
    ensures Spoken(b.r.batch, slots, asked, log', b.r.spec) && BookSays(b.r.batch, still, asked, book'.outs, log')
    ensures Needed(slots, log', maxTokens)
    ensures Booked(still, book'.outs, count') && Measured(b.r.slots, slots, asked, count')
    ensures (forall i | 0 <= i < |slots| :: slots[i] in count && slots[i] in count')
    ensures Todo(slots, count', maxTokens) < Todo(slots, count, maxTokens)
  {
    hide Live, Runner.Valid, Sum, Todo, Balanced, Progress, Measured, Booked, Spoken, BookSays, Logged, Advanced,
         Needed;
    var rounds;
    book', rounds, hs' := StepActive(b, active, book, asked, hs);
    BalancedKnows(slots, count, c, b.r.spec, log);
    count', c', still, log' := Tally(slots, active, count, c, b.r.spec, rounds, maxTokens, log);
    BalancedKnows(slots, count', c', b.r.spec, log');
    NeededStep(slots, active, count, c, b.r.spec, rounds, log, log', maxTokens);
    SpokenStep(b.r.batch, old(b.r.slots), slots, active, asked, book, book', hs, rounds, log, log', b.r.spec);
    BookSaysPart(b.r.batch, active, still, asked, book'.outs, log');
    BookedStep(active, book, book', rounds, count, count');
    MeasuredStep(b.r.batch, old(b.r.slots), b.r.slots, slots, active, asked, book', hs', count, count', b.r.spec);
    BookedPart(active, still, book'.outs, count');
  }

  /** A logged round continues the transcripts of the active slots. */
  lemma {:induction false} SpokenStep(net: Net, all: seq<Slot>, slots: seq<nat>, active: seq<nat>,
        asked: map<nat, seq<Token>>, book: Book, book': Book, hs: map<nat, seq<Token>>, rounds: map<nat, Round>,
        log: seq<Entry>, log': seq<Entry>, k: nat)
    requires Covers(active, book, asked, hs) && AllLive(net, all, false, active, asked, book, hs, k)
    requires Spoken(net, slots, asked, log, k) && BookSays(net, active, asked, book.outs, log)
    requires Logged(log, log', active, rounds) && forall i | 0 <= i < |active| :: active[i] in slots
    requires forall i | 0 <= i < |active| ::
               && active[i] in rounds && active[i] in book'.outs
               && Advanced(net, hs[active[i]], book.anchors[active[i]], book.drafts[active[i]], rounds[active[i]])
               && book'.outs[active[i]] == book.outs[active[i]] + rounds[active[i]].decision.committed
    ensures Spoken(net, slots, asked, log', k) && BookSays(net, active, asked, book'.outs, log')
  {
    hide Live, Transcript, Output, Next, Advanced, RoundsOf;
    forall i | 0 <= i < |slots|
      ensures slots[i] in asked && Transcript(net, asked[slots[i]], RoundsOf(log', slots[i]), Unchanged, i, k)
      ensures slots[i] in active && slots[i] in book'.outs && asked[slots[i]] != [] ==>
                book'.outs[slots[i]] == Output(Next(net, asked[slots[i]]), RoundsOf(log', slots[i]))
    {
      var s := slots[i];
      if s in active {
        var j :| 0 <= j < |active| && active[j] == s;
        LiveProposal(net, all[s], false, asked[s], book.outs[s], hs[s], book.anchors[s], book.drafts[s], k);
        TranscriptSnoc(net, asked[s], RoundsOf(log, s), rounds[s], Unchanged, i, k, hs[s], book.anchors[s]);
      } else {
        assert RoundsOf(log', s) == RoundsOf(log, s);
      }
    }
  }

  lemma BookSaysPart(net: Net, active: seq<nat>, still: seq<nat>, asked: map<nat, seq<Token>>,
        outs: map<nat, seq<Token>>, log: seq<Entry>)
    requires BookSays(net, active, asked, outs, log) && forall i | 0 <= i < |still| :: still[i] in active
    ensures BookSays(net, still, asked, outs, log)
  {
    hide Output, Next, RoundsOf;
  }

  method StepActive(b: Backend, active: seq<nat>, book: Book, ghost asked: map<nat, seq<Token>>,
        ghost hs: map<nat, seq<Token>>)
    returns (book': Book, rounds: map<nat, Round>, ghost hs': map<nat, seq<Token>>)
    requires b.r.Valid() && b.r.Known(active) && active != []
    requires Covers(active, book, asked, hs) && AllLive(b.r.batch, b.r.slots, false, active, asked, book, hs, b.r.spec)
    modifies b.r
    ensures b.r.Valid() && Untouched(old(b.r.slots), b.r.slots, active)
    ensures Covers(active, book', asked, hs')
    ensures AllLive(b.r.batch, b.r.slots, false, active, asked, book', hs', b.r.spec)
    ensures forall i | 0 <= i < |active| ::
              && active[i] in rounds && rounds[active[i]].decision.accepted <= b.r.spec
              && Advanced(b.r.batch, hs[active[i]], book.anchors[active[i]], book.drafts[active[i]], rounds[active[i]])
              && book'.outs[active[i]] == book.outs[active[i]] + rounds[active[i]].decision.committed
  {
    hide Live, Decide;
    forall i | 0 <= i < |active| ensures |book.drafts[active[i]]| == b.r.spec {
      LiveServes(b.r.batch, b.r.slots[active[i]], false, asked[active[i]], book.outs[active[i]], hs[active[i]],
                 book.anchors[active[i]], book.drafts[active[i]], b.r.spec);
    }
    book', hs', rounds := Step(b, false, active, asked, book, book.drafts, hs);
  }

  lemma BookedStep(active: seq<nat>, book: Book, book': Book, rounds: map<nat, Round>, count: map<nat, nat>,
        count': map<nat, nat>)
    requires Booked(active, book.outs, count)
    requires forall i | 0 <= i < |active| ::
               && active[i] in rounds && active[i] in book'.outs && active[i] in count'
               && book'.outs[active[i]] == book.outs[active[i]] + rounds[active[i]].decision.committed
               && count'[active[i]] == count[active[i]] + |rounds[active[i]].decision.committed|
    ensures Booked(active, book'.outs, count')
  {
  }

  lemma BookedPart(active: seq<nat>, still: seq<nat>, outs: map<nat, seq<Token>>, count: map<nat, nat>)
    requires Booked(active, outs, count) && forall i | 0 <= i < |still| :: still[i] in active
    ensures Booked(still, outs, count)
  {
  }

  lemma MeasuredStep(net: Net, before: seq<Slot>, after: seq<Slot>, slots: seq<nat>, active: seq<nat>,
        asked: map<nat, seq<Token>>, book: Book, hs: map<nat, seq<Token>>, count: map<nat, nat>, count': map<nat, nat>,
        k: nat)
    requires Measured(before, slots, asked, count) && Untouched(before, after, active)
    requires Covers(active, book, asked, hs) && AllLive(net, after, false, active, asked, book, hs, k)
    requires Booked(active, book.outs, count')
    requires forall s | s in count :: s in count' && (s !in active ==> count'[s] == count[s])
    ensures Measured(after, slots, asked, count')
  {
    hide Live;
    forall i | 0 <= i < |slots|
      ensures slots[i] in count' && after[slots[i]].kvLen == |asked[slots[i]]| + count'[slots[i]]
    {
      if slots[i] in active {
        var j :| 0 <= j < |active| && active[j] == slots[i];
        LiveLengths(net, after[active[j]], false, asked[active[j]], book.outs[active[j]], hs[active[j]],
                    book.anchors[active[j]], book.drafts[active[j]], k);
      }
    }
  }

  /** Serve one batch to completion.  It terminates whatever is drafted; every request gets its
      tokens and at most one round's overshoot; and each slot's length is exactly its prompt plus
      its count.  The counters are those of the record of its rounds, one entry for every slot and
      round, in which every slot's own entries are the model's own rounds over its own drafts, each
      at the history the earlier ones left. */
  method RunBatch(b: Backend, slots: seq<nat>, prompts: seq<seq<Token>>, maxTokens: nat)
    returns (c: Counters, count: map<nat, nat>, ghost log: seq<Entry>)
    requires b.r.Valid() && b.r.Known(slots) && |slots| == |prompts| && slots != []
    requires forall i | 0 <= i < |slots| :: prompts[i] != [] && Fresh(b.r.slots[slots[i]])
    requires forall i | 0 <= i < |slots| :: StartsClean(b.r.slots[slots[i]], AllSingle(prompts))
    modifies b.r
    ensures b.r.Valid() && Untouched(old(b.r.slots), b.r.slots, slots)
    ensures Balanced(slots, count, c, b.r.spec, log) && Progress(slots, [], count, maxTokens, b.r.spec)
    ensures forall i | 0 <= i < |slots| ::
              slots[i] in count && b.r.slots[slots[i]].kvLen == |prompts[i]| + count[slots[i]]
    ensures forall i | 0 <= i < |slots| ::
              Transcript(b.r.batch, prompts[i], RoundsOf(log, slots[i]), Unchanged, i, b.r.spec)
    ensures Needed(slots, log, maxTokens)
  {
    hide Live, AllSingle, Fresh, StartsClean, Runner.Valid, Sum, Todo, Balanced, Progress, Booked, BookSays,
         Transcript, RoundsOf, Needed;
    ghost var asked;
    var book;
    book, asked := Begin(b, false, slots, prompts);
    ghost var hs := asked;
    count := ZeroCounts(slots);
    c, log := Counters(0, 0, 0), [];
    Starts(b.r.slots, b.r.batch, slots, asked, book, count, maxTokens, b.r.spec);
    var active := slots;
    while active != []
      invariant b.r.Valid() && Untouched(old(b.r.slots), b.r.slots, slots) && b.r.Known(active)
      invariant forall i | 0 <= i < |active| :: active[i] in slots
      invariant Covers(active, book, asked, hs)
      invariant AllLive(b.r.batch, b.r.slots, false, active, asked, book, hs, b.r.spec)
      invariant Balanced(slots, count, c, b.r.spec, log) && Progress(slots, active, count, maxTokens, b.r.spec)
      invariant Spoken(b.r.batch, slots, asked, log, b.r.spec) && BookSays(b.r.batch, active, asked, book.outs, log)
      invariant Needed(slots, log, maxTokens)
      invariant Booked(active, book.outs, count) && Measured(b.r.slots, slots, asked, count)
      decreases Todo(slots, count, maxTokens)
    {
      book, c, count, active, hs, log := BatchRound(b, slots, active, book, c, count, maxTokens, asked, hs, log);
    }
  }
}
