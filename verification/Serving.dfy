/**
  The continuous-batching core shared by the two drivers: admission onto free slots, one
  verify round for whatever is active, and release of finished slots.

  Every active request has a reference slot on the single-request path that replays exactly
  the tokens the served slot committed; each round the served next anchor is judged against
  the reference's own logits at that history.
 */
module ServingCores {
  import opened Backends
  import opened Drafting
  import opened Ledgers
  import opened Network
  import opened Occupancies
  import opened Outcomes
  import opened Rosters
  import opened Runners
  import opened Runs
  import opened Slots
  import opened Speculation

  const NEAR_TIE_MARGIN := 2.0
  const TAIL_TOKENS: nat := 40

  /** How the reference judges `next` at history `h`: exact, or within the near-tie margin of
      its own best logit. */
  function Judge(net: Net, h: seq<Token>, next: Token): Report
    requires h != [] && next < net.vocab
  {
    var logits := net.head(HiddenOf(net, h));
    var best := Argmax(logits);
    var margin := logits[best] - logits[next];
    Report(best, next, best == next, margin, best == next || margin < NEAR_TIE_MARGIN)
  }

  /** Same history, same next anchor: an exact engine is never flagged. */
  lemma ExactIsOk(net: Net, h: seq<Token>)
    requires h != []
    ensures Judge(net, h, Next(net, h)).exact && Judge(net, h, Next(net, h)).ok
  {
  }

  /** Raised by `m`, the choice would be a largest one. */
  ghost predicate Lifts(l: Logits, next: Token, m: real)
    requires next < |l|
  {
    forall i | 0 <= i < |l| :: l[i] <= l[next] + m
  }

  /** What a report says of the reference's own row of logits: it names the first largest position;
      it is exact iff that is the choice judged; the margin is the least amount by which that
      choice would have to rise to be a largest one; and it is ok iff it is exact or no logit is
      ahead of it by two or more. */
  lemma JudgeMeans(net: Net, h: seq<Token>, next: Token)
    requires h != [] && next < net.vocab
    ensures var l, r := net.head(HiddenOf(net, h)), Judge(net, h, next);
            && |l| == net.vocab && r.next == next && r.predicted < |l|
            && (forall i | 0 <= i < |l| :: l[i] <= l[r.predicted])
            && (forall i | 0 <= i < r.predicted :: l[i] < l[r.predicted])
            && (r.exact <==> (forall i | 0 <= i < |l| :: l[i] <= l[next]) && forall i | 0 <= i < next :: l[i] < l[next])
            && Lifts(l, next, r.margin) && (forall m | Lifts(l, next, m) :: r.margin <= m)
            && (r.ok <==> r.exact || forall i | 0 <= i < |l| :: l[i] - l[next] < 2.0)
  {
    hide HiddenOf, Argmax;
    var l := net.head(HiddenOf(net, h));
    var best := Argmax(l);
    assert l[best] <= l[next] <==> forall i | 0 <= i < |l| :: l[i] <= l[next];
    forall m | Lifts(l, next, m) ensures l[best] - l[next] <= m {
      assert l[best] <= l[next] + m;
    }
  }

  /** The served slot and its reference slot are in lockstep. */
  ghost predicate Lockstep(single: Net, batch: Net, spec: nat, slots: seq<Slot>, a: Active) {
    && a.slot < |slots| && a.refSlot < |slots| && 1 <= spec && a.req.prompt != []
    && var h := HistoryOf(a);
       && Serving(batch, slots[a.slot], h, a.anchor) && InPlace(single, slots[a.refSlot], h)
       && a.drafts == Drafts(batch, h, a.anchor, spec)
       && OnTrack(batch, a.req.prompt, [a.first] + a.tokens, h, a.anchor)
  }

  /** The served tail kept with a row out of tolerance: the tokens committed before the round,
      then the tokens the round fed. */
  function Tail(a: Active, round: Round): seq<Token> {
    LastOf(a.tokens + RealNew(a.anchor, round.decision), TAIL_TOKENS)
  }

  /** The row is the reference's verdict, at exactly the history the served slot then held, on
      the anchor the served path chose there. */
  ghost predicate RowIsTrue(single: Net, batch: Net, row: Row, seen: Sighting) {
    var h := HistoryOf(Moved(seen.before, seen.round));
    && h != [] && seen.before.req.prompt <= h && row.req == seen.before.req.id
    && seen.before.req.prompt != [] && seen.before.first == Next(batch, seen.before.req.prompt)
    && row.report.next == Next(batch, h) && row.report.next < single.vocab
    && row.report == Judge(single, h, row.report.next)
    && row.recent == (if row.report.ok then None else Some(Tail(seen.before, seen.round)))
  }

  /** A recorded window is the end of what the request had committed before the round, followed by
      the anchor and the drafts the round accepted: forty tokens of it, or all there is. */
  ghost predicate WindowEnds(row: Row, a: Active, round: Round) {
    && (row.recent.Some? <==> !row.report.ok)
    && (row.recent.Some? ==>
          var w, d := row.recent.value, round.decision;
          var all := a.tokens + [a.anchor] + d.committed[..d.accepted];
          && |w| == (if |a.tokens| + d.accepted + 1 <= 40 then |a.tokens| + d.accepted + 1 else 40)
          && forall j | 0 <= j < |w| :: w[j] == all[|all| - |w| + j])
  }

  lemma RowWindow(single: Net, batch: Net, row: Row, a: Active, round: Round)
    requires RowIsTrue(single, batch, row, Sighting(a, round))
    ensures WindowEnds(row, a, round)
  {
    hide Judge, Next, HistoryOf;
    var d := round.decision;
    assert a.tokens + [a.anchor] + d.committed[..d.accepted] == a.tokens + RealNew(a.anchor, d);
  }

  /** A slot of length zero has nothing left of its last occupant but stale tensors. */
  ghost predicate Tidy(slots: seq<Slot>) {
    forall s | 0 <= s < |slots| :: slots[s].kvLen == 0 ==> Fresh(slots[s])
  }

  ghost predicate WellServed(f: Finished, spec: nat) {
    f.req.maxTokens <= |f.tokens| <= Need(f.req) + spec
  }

  /** The slot's own output is the batch model's greedy continuation. */
  ghost predicate Lossless(net: Net, f: Finished) {
    f.req.prompt != [] && f.tokens != [] &&
    [Next(net, f.req.prompt)] + f.tokens == Greedy(net, f.req.prompt, |f.tokens| + 1)
  }

  ghost predicate AllUnfinished(active: seq<Active>) {
    forall i | 0 <= i < |active| :: Unfinished(active[i])
  }

  ghost predicate AllServed(batch: Net, spec: nat, finished: seq<Finished>) {
    forall i | 0 <= i < |finished| :: WellServed(finished[i], spec) && Lossless(batch, finished[i])
  }

  /** Free slots and active slots are the production slots, each exactly once. */
  ghost predicate Partitioned(free: seq<nat>, active: seq<Active>, capacity: nat) {
    multiset(free) + multiset(SlotsOf(active)) == multiset(Range(capacity))
  }

  /** Every active request has its own slots, is in lockstep with its reference and unfinished. */
  ghost predicate Sound(single: Net, batch: Net, spec: nat, slots: seq<Slot>, capacity: nat, active: seq<Active>) {
    && Tidy(slots) && Apart(active, capacity, |slots|) && AllUnfinished(active)
    && AllLockstep(single, batch, spec, slots, active)
  }

  // ---------------------------------------------------------------------------
  // One active request through one round.
  // ---------------------------------------------------------------------------

  /** Between the batched verify and the reference check: the served slot has moved on, its
      reference has not. */
  ghost predicate HalfStep(single: Net, batch: Net, spec: nat, slots: seq<Slot>, a: Active, round: Round) {
    && a.slot < |slots| && a.refSlot < |slots| && 1 <= spec && a.req.prompt != [] && |a.drafts| == spec
    && var h := HistoryOf(a);
       && Advanced(batch, h, a.anchor, a.drafts, round)
       && Serving(batch, slots[a.slot], Grown(h, a.anchor, round), round.nextAnchor)
       && InPlace(single, slots[a.refSlot], h)
       && OnTrack(batch, a.req.prompt, [a.first] + a.tokens, h, a.anchor)
  }

  lemma MovedHistory(batch: Net, a: Active, round: Round)
    requires a.req.prompt != [] && OnTrack(batch, a.req.prompt, [a.first] + a.tokens, HistoryOf(a), a.anchor)
    requires Advanced(batch, HistoryOf(a), a.anchor, a.drafts, round)
    ensures HistoryOf(Moved(a, round)) == Grown(HistoryOf(a), a.anchor, round)
    ensures OnTrack(batch, a.req.prompt, [a.first] + Moved(a, round).tokens, HistoryOf(Moved(a, round)),
                    round.nextAnchor)
    ensures a.req.prompt <= HistoryOf(Moved(a, round))
    ensures round.nextAnchor == Next(batch, HistoryOf(Moved(a, round)))
  {
    hide Next, Drafts, Decide, IsGreedy;
    TrackRound(batch, a.req.prompt, [a.first] + a.tokens, HistoryOf(a), a.anchor, a.drafts, round);
    DecisionIsLossless(batch, HistoryOf(a), a.anchor, a.drafts);
    var m := Moved(a, round);
    assert [a.first] + m.tokens == [a.first] + a.tokens + round.decision.committed;
    assert a.req.prompt + ([a.first] + m.tokens) == a.req.prompt + [a.first] + m.tokens;
    var g := Grown(HistoryOf(a), a.anchor, round);
    assert g == (g + [round.nextAnchor])[..|g|];
  }

  /** The reference replays the served tokens and judges the served choice. */
  method CheckAgainstReference(b: Backend, a: Active, round: Round) returns (a': Active, report: Report)
    requires b.r.Valid() && HalfStep(b.r.single, b.r.batch, b.r.spec, b.r.slots, a, round)
    requires a.slot != a.refSlot && b.r.single.vocab == b.r.batch.vocab
    modifies b.r
    ensures b.r.Valid() && Untouched(old(b.r.slots), b.r.slots, [a.refSlot])
    ensures a' == Moved(a, round) && Lockstep(b.r.single, b.r.batch, b.r.spec, b.r.slots, a')
    ensures b.r.slots[a.refSlot].kvLen > 0
    ensures a.req.prompt <= HistoryOf(a') && report.next == Next(b.r.batch, HistoryOf(a')) < b.r.single.vocab
    ensures report == Judge(b.r.single, HistoryOf(a'), report.next)
  {
    hide HiddenOf, Fold, Drafts, Decide, DraftKvs, IsGreedy, Argmax, Aligned, Selected;
    ghost var h := HistoryOf(a);
    var real_ := RealNew(a.anchor, round.decision);
    MovedHistory(b.r.batch, a, round);
    InPlaceFollowsHistory(b.r.single, b.r.slots[a.refSlot], h, real_, |real_| == 1);
    var hids := b.r.Forward(a.refSlot, real_, |real_| == 1);
    assert real_[..|real_| - 1 + 1] == real_;
    var logits := b.r.single.head(hids[|hids| - 1]);
    assert hids[|real_| - 1] == HiddenOf(b.r.single, h + real_);
    var best := Argmax(logits);
    var margin := logits[best] - logits[round.nextAnchor];
    report := Report(best, round.nextAnchor, best == round.nextAnchor, margin,
                     best == round.nextAnchor || margin < NEAR_TIE_MARGIN);
    a' := Moved(a, round);
  }

  // ---------------------------------------------------------------------------
  // Admission of one request.
  // ---------------------------------------------------------------------------

  method ResetIfUsed(r: Runner, slot: nat)
    requires r.Valid() && slot < |r.slots| && Tidy(r.slots)
    modifies r
    ensures r.Valid() && Tidy(r.slots) && Untouched(old(r.slots), r.slots, [slot]) && Fresh(r.slots[slot])
    ensures r.slots[slot].rows == old(r.slots)[slot].rows
  {
    if r.slots[slot].kvLen != 0 {
      r.ResetSlot(slot);
    }
  }

  /** Prefill the reference slot, compare its first token with the served anchor and, if they
      differ, measure by how much. */
  method AdmitOne(r: Runner, slot: nat, refSlot: nat, diagSlot: nat, req: Request, start: Start, round: nat)
    returns (a: Active, fine: bool)
    requires r.Valid() && Tidy(r.slots) && slot < |r.slots| && refSlot < |r.slots| && diagSlot < |r.slots|
    requires slot != refSlot && diagSlot != refSlot && diagSlot != slot && r.single.vocab == r.batch.vocab
    requires req.prompt != [] && Prefilled(r.batch, r.slots[slot], req.prompt, start, r.spec)
    modifies r
    ensures r.Valid() && Tidy(r.slots) && Untouched(old(r.slots), r.slots, [refSlot, diagSlot])
    ensures a.slot == slot && a.refSlot == refSlot && a.req == req && a.tokens == [] && a.admitted == round
    ensures Lockstep(r.single, r.batch, r.spec, r.slots, a)
    ensures start.anchor == Next(r.batch, req.prompt) < r.single.vocab
    ensures fine == Judge(r.single, req.prompt, start.anchor).ok
  {
    hide HiddenOf, Fold, Drafts, DraftKvs, Aligned, Argmax;
    ResetIfUsed(r, refSlot);
    var refFirst := r.Prefill(refSlot, req.prompt);
    fine := true;
    if refFirst != start.anchor {
      fine := MarginDiag(r, diagSlot, req.prompt, start.anchor);
    }
    TrackStart(r.batch, r.slots[slot], req.prompt, start, r.spec);
    a := Active(slot, refSlot, req, start.anchor, start.drafts, start.anchor, [], round);
    assert req.prompt + [start.anchor] + [] == req.prompt + [start.anchor];
    assert HistoryOf(a) == req.prompt;
    assert [a.first] + a.tokens == [start.anchor];
  }

  method MarginDiag(r: Runner, diagSlot: nat, prompt: seq<Token>, anchor: Token) returns (fine: bool)
    requires r.Valid() && Tidy(r.slots) && diagSlot < |r.slots| && prompt != [] && anchor < r.single.vocab
    modifies r
    ensures r.Valid() && Tidy(r.slots) && Untouched(old(r.slots), r.slots, [diagSlot])
    ensures fine == Judge(r.single, prompt, anchor).ok
  {
    hide HiddenOf, Fold, Argmax;
    ResetIfUsed(r, diagSlot);
    InPlaceFollowsHistory(r.single, r.slots[diagSlot], [], prompt, false);
    var hids := r.Forward(diagSlot, prompt, false);
    assert [] + prompt == prompt && prompt[..|prompt| - 1 + 1] == prompt;
    var last := r.single.head(hids[|hids| - 1]);
    var best := Argmax(last);
    fine := best == anchor || last[best] - last[anchor] < NEAR_TIE_MARGIN;
  }

  // ---------------------------------------------------------------------------
  // The core.
  // ---------------------------------------------------------------------------

  ghost predicate AllLockstep(single: Net, batch: Net, spec: nat, slots: seq<Slot>, active: seq<Active>) {
    forall i | 0 <= i < |active| :: Lockstep(single, batch, spec, slots, active[i])
  }

  ghost predicate LogIsTrue(single: Net, batch: Net, log: seq<Row>, seen: seq<Sighting>) {
    |log| == |seen| && forall i | 0 <= i < |log| :: RowIsTrue(single, batch, log[i], seen[i])
  }

  lemma LockstepServes(single: Net, batch: Net, spec: nat, slots: seq<Slot>, a: Active)
    requires Lockstep(single, batch, spec, slots, a)
    ensures Serving(batch, slots[a.slot], HistoryOf(a), a.anchor) && |a.drafts| == spec && 1 <= spec
    ensures a.refSlot < |slots|
  {
  }

  lemma LockstepHalf(single: Net, batch: Net, spec: nat, before: seq<Slot>, after: seq<Slot>, a: Active, round: Round)
    requires Lockstep(single, batch, spec, before, a) && |after| == |before| && after[a.refSlot] == before[a.refSlot]
    requires Advanced(batch, HistoryOf(a), a.anchor, a.drafts, round)
    requires Serving(batch, after[a.slot], Grown(HistoryOf(a), a.anchor, round), round.nextAnchor)
    ensures HalfStep(single, batch, spec, after, a, round)
    ensures after[a.slot].kvLen > 0
  {
    hide Advanced, Grown;
  }

  /** Nothing a request depends on was touched. */
  lemma LockstepFrame(single: Net, batch: Net, spec: nat, before: seq<Slot>, after: seq<Slot>, a: Active)
    requires Lockstep(single, batch, spec, before, a) && |after| == |before|
    requires after[a.slot] == before[a.slot] && after[a.refSlot] == before[a.refSlot]
    ensures Lockstep(single, batch, spec, after, a)
  {
  }

  lemma HalfFrame(single: Net, batch: Net, spec: nat, before: seq<Slot>, after: seq<Slot>, a: Active, round: Round)
    requires HalfStep(single, batch, spec, before, a, round) && |after| == |before|
    requires after[a.slot] == before[a.slot] && after[a.refSlot] == before[a.refSlot]
    ensures HalfStep(single, batch, spec, after, a, round)
  {
  }

  // ---------------------------------------------------------------------------
  // One round over everything active.
  // ---------------------------------------------------------------------------

  ghost predicate AllHalf(single: Net, batch: Net, spec: nat, slots: seq<Slot>, active: seq<Active>,
        rounds: seq<Round>)
  {
    |rounds| == |active| && forall i | 0 <= i < |active| :: HalfStep(single, batch, spec, slots, active[i], rounds[i])
  }

  method Pending(active: seq<Active>) returns (anchors: map<nat, Token>, drafts: map<nat, seq<Token>>)
    requires Distinct(SlotsOf(active))
    ensures forall i | 0 <= i < |active| ::
              && active[i].slot in anchors && active[i].slot in drafts
              && anchors[active[i].slot] == active[i].anchor && drafts[active[i].slot] == active[i].drafts
  {
    hide SlotsOf;
    var ids, n := SlotsOf(active), |active|;
    anchors := ByKey(ids, seq(n, i requires 0 <= i < n => active[i].anchor));
    drafts := ByKey(ids, seq(n, i requires 0 <= i < n => active[i].drafts));
  }

  ghost function Held(active: seq<Active>): (hs: map<nat, seq<Token>>)
    requires Distinct(SlotsOf(active))
    ensures forall i | 0 <= i < |active| :: active[i].slot in hs && hs[active[i].slot] == HistoryOf(active[i])
  {
    ByKeyGhost(SlotsOf(active), seq(|active|, i requires 0 <= i < |active| => HistoryOf(active[i])))
  }

  /** One batched verify for everything active. */
  method VerifyActive(b: Backend, active: seq<Active>) returns (rounds: seq<Round>)
    requires b.r.Valid() && Tidy(b.r.slots) && active != []
    requires b.r.Known(SlotsOf(active)) && forall i | 0 <= i < |active| :: active[i].refSlot !in SlotsOf(active)
    requires AllLockstep(b.r.single, b.r.batch, b.r.spec, b.r.slots, active)
    modifies b.r
    ensures b.r.Valid() && Tidy(b.r.slots) && Untouched(old(b.r.slots), b.r.slots, SlotsOf(active))
    ensures AllHalf(b.r.single, b.r.batch, b.r.spec, b.r.slots, active, rounds)
  {
    hide Lockstep, HalfStep, Serving, Advanced, Grown, WellFormed, SlotsOf, HistoryOf, Fresh;
    var ids, n := SlotsOf(active), |active|;
    var anchors, drafts := Pending(active);
    ghost var hs := Held(active);
    forall i | 0 <= i < n
      ensures Serving(b.r.batch, b.r.slots[ids[i]], hs[ids[i]], anchors[ids[i]]) && |drafts[ids[i]]| == b.r.spec
      ensures 1 <= b.r.spec
      ensures active[i].refSlot < |b.r.slots|
    {
      LockstepServes(b.r.single, b.r.batch, b.r.spec, b.r.slots, active[i]);
    }
    var out := b.VerifyAndCommitBatch(ids, anchors, drafts, hs);
    rounds := seq(n, i requires 0 <= i < n && ids[i] in out => out[ids[i]]);
    forall i | 0 <= i < n
      ensures HalfStep(b.r.single, b.r.batch, b.r.spec, b.r.slots, active[i], rounds[i])
      ensures b.r.slots[ids[i]].kvLen > 0
    {
      LockstepHalf(b.r.single, b.r.batch, b.r.spec, old(b.r.slots), b.r.slots, active[i], rounds[i]);
    }
    forall s | 0 <= s < |b.r.slots| && b.r.slots[s].kvLen == 0 ensures Fresh(b.r.slots[s]) {
      assert s !in ids;
    }
  }

  /** Judge every served choice, each against its own reference, and log it. */
  method CheckAll(b: Backend, active: seq<Active>, rounds: seq<Round>, round: nat)
    returns (updated: seq<Active>, rows: seq<Row>, ghost seen: seq<Sighting>)
    requires b.r.Valid() && Tidy(b.r.slots) && b.r.single.vocab == b.r.batch.vocab
    requires Distinct(RefsOf(active))
    requires forall i, j | 0 <= i < |active| && 0 <= j < |active| :: active[i].slot != active[j].refSlot
    requires AllHalf(b.r.single, b.r.batch, b.r.spec, b.r.slots, active, rounds)
    modifies b.r
    ensures b.r.Valid() && Tidy(b.r.slots) && Untouched(old(b.r.slots), b.r.slots, RefsOf(active))
    ensures |updated| == |rows| == |active| && AllLockstep(b.r.single, b.r.batch, b.r.spec, b.r.slots, updated)
    ensures forall i | 0 <= i < |active| :: updated[i] == Moved(active[i], rounds[i])
    ensures LogIsTrue(b.r.single, b.r.batch, rows, seen) && |seen| == |active|
    ensures forall i | 0 <= i < |active| :: rows[i].round == round && seen[i] == Sighting(active[i], rounds[i])
    ensures forall i | 0 <= i < |active| :: WindowEnds(rows[i], active[i], rounds[i])
  {
    hide Lockstep, HalfStep, WellFormed, RefsOf, Moved, RowIsTrue, Fresh, Tail, RealNew, Judge, Tidy, WindowEnds;
    ghost var refs := RefsOf(active);
    updated, rows, seen := [], [], [];
    for i := 0 to |active|
      invariant b.r.Valid() && Tidy(b.r.slots) && Untouched(old(b.r.slots), b.r.slots, refs[..i])
      invariant |updated| == |rows| == |seen| == i
      invariant forall j | 0 <= j < i ::
                  && updated[j] == Moved(active[j], rounds[j]) && updated[j].slot == active[j].slot
                  && updated[j].refSlot == active[j].refSlot
      invariant forall j | 0 <= j < i :: Lockstep(b.r.single, b.r.batch, b.r.spec, b.r.slots, updated[j])
      invariant forall j | 0 <= j < i ::
                  && RowIsTrue(b.r.single, b.r.batch, rows[j], seen[j]) && rows[j].round == round
                  && seen[j] == Sighting(active[j], rounds[j])
      invariant forall j | i <= j < |active| ::
                  HalfStep(b.r.single, b.r.batch, b.r.spec, b.r.slots, active[j], rounds[j])
    {
      label before:
      var a := active[i];
      var a', row := CheckOne(b, a, rounds[i], round);
      forall j | 0 <= j < i ensures Lockstep(b.r.single, b.r.batch, b.r.spec, b.r.slots, updated[j]) {
        LockstepInRange(b.r.single, b.r.batch, b.r.spec, old@before(b.r.slots), updated[j]);
        LockstepFrame(b.r.single, b.r.batch, b.r.spec, old@before(b.r.slots), b.r.slots, updated[j]);
      }
      forall j | i + 1 <= j < |active|
        ensures HalfStep(b.r.single, b.r.batch, b.r.spec, b.r.slots, active[j], rounds[j])
      {
        HalfInRange(b.r.single, b.r.batch, b.r.spec, old@before(b.r.slots), active[j], rounds[j]);
        HalfFrame(b.r.single, b.r.batch, b.r.spec, old@before(b.r.slots), b.r.slots, active[j], rounds[j]);
      }
      updated, rows, seen := updated + [a'], rows + [row], seen + [Sighting(a, rounds[i])];
    }
    assert refs[..|active|] == refs;
    forall i | 0 <= i < |active| ensures WindowEnds(rows[i], active[i], rounds[i]) {
      RowWindow(b.r.single, b.r.batch, rows[i], active[i], rounds[i]);
    }
  }

  lemma LockstepInRange(single: Net, batch: Net, spec: nat, slots: seq<Slot>, a: Active)
    requires Lockstep(single, batch, spec, slots, a)
    ensures a.slot < |slots| && a.refSlot < |slots|
  {
  }

  lemma HalfInRange(single: Net, batch: Net, spec: nat, slots: seq<Slot>, a: Active, round: Round)
    requires HalfStep(single, batch, spec, slots, a, round)
    ensures a.slot < |slots| && a.refSlot < |slots|
  {
  }

  lemma HalfStarts(single: Net, batch: Net, spec: nat, slots: seq<Slot>, a: Active, round: Round)
    requires HalfStep(single, batch, spec, slots, a, round)
    ensures a.req.prompt != [] && a.first == Next(batch, a.req.prompt)
  {
    hide Next, Serving, InPlace, Advanced, Grown;
    var out := [a.first] + a.tokens;
    assert out[0] == Next(batch, a.req.prompt + out[..0]) && a.req.prompt + out[..0] == a.req.prompt;
  }

  method CheckOne(b: Backend, a: Active, round: Round, now: nat) returns (a': Active, row: Row)
    requires b.r.Valid() && Tidy(b.r.slots) && HalfStep(b.r.single, b.r.batch, b.r.spec, b.r.slots, a, round)
    requires a.slot != a.refSlot && b.r.single.vocab == b.r.batch.vocab
    modifies b.r
    ensures b.r.Valid() && Tidy(b.r.slots) && Untouched(old(b.r.slots), b.r.slots, [a.refSlot])
    ensures a' == Moved(a, round) && a'.slot == a.slot && a'.refSlot == a.refSlot
    ensures Lockstep(b.r.single, b.r.batch, b.r.spec, b.r.slots, a')
    ensures RowIsTrue(b.r.single, b.r.batch, row, Sighting(a, round)) && row.round == now
  {
    hide Lockstep, WellFormed, HistoryOf, Next, Judge, RowIsTrue, Tail, Tidy;
    HalfInRange(b.r.single, b.r.batch, b.r.spec, b.r.slots, a, round);
    HalfStarts(b.r.single, b.r.batch, b.r.spec, b.r.slots, a, round);
    hide HalfStep;
    var report;
    a', report := CheckAgainstReference(b, a, round);
    row := Row(now, a.req.id, report, if report.ok then None else Some(Tail(a, round)));
    JudgedRow(b.r.single, b.r.batch, a, round, row);
    StillTidy(old(b.r.slots), b.r.slots, [a.refSlot]);
  }

  lemma JudgedRow(single: Net, batch: Net, a: Active, round: Round, row: Row)
    requires a.req.prompt != [] && a.first == Next(batch, a.req.prompt) && a.req.prompt <= HistoryOf(Moved(a, round))
    requires row.report.next == Next(batch, HistoryOf(Moved(a, round))) < single.vocab
    requires row.report == Judge(single, HistoryOf(Moved(a, round)), row.report.next) && row.req == a.req.id
    requires row.recent == if row.report.ok then None else Some(Tail(a, round))
    ensures RowIsTrue(single, batch, row, Sighting(a, round))
  {
    hide Next, Judge, HistoryOf, Tail;
  }

  // ---------------------------------------------------------------------------
  // Admission of a batch, and release.
  // ---------------------------------------------------------------------------

  method PromptsOf(reqs: seq<Request>) returns (prompts: seq<seq<Token>>)
    ensures |prompts| == |reqs| && forall i | 0 <= i < |reqs| :: prompts[i] == reqs[i].prompt
  {
    prompts := [];
    for i := 0 to |reqs|
      invariant |prompts| == i && forall j | 0 <= j < i :: prompts[j] == reqs[j].prompt
    {
      prompts := prompts + [reqs[i].prompt];
    }
  }

  method ClearSlots(r: Runner, ids: seq<nat>)
    requires r.Valid() && r.Known(ids) && Tidy(r.slots)
    modifies r
    ensures r.Valid() && Tidy(r.slots) && Untouched(old(r.slots), r.slots, ids)
    ensures forall i | 0 <= i < |ids| :: Fresh(r.slots[ids[i]]) && r.slots[ids[i]].rows == old(r.slots)[ids[i]].rows
  {
    hide WellFormed, Fresh, Tidy;
    for i := 0 to |ids|
      invariant r.Valid() && Tidy(r.slots) && Untouched(old(r.slots), r.slots, ids[..i])
      invariant forall j | 0 <= j < i :: Fresh(r.slots[ids[j]]) && r.slots[ids[j]].rows == old(r.slots)[ids[j]].rows
    {
      assert ids[i] !in ids[..i];
      ResetIfUsed(r, ids[i]);
    }
    assert ids[..|ids|] == ids;
  }

  /** A batch whose prefill starts clean: some prompt has two tokens or more, or nothing is left
      in row 0 of any of the slots. */
  ghost predicate CleanBatch(slots: seq<Slot>, ids: seq<nat>, reqs: seq<Request>) {
    && |ids| == |reqs| && (forall i | 0 <= i < |reqs| :: reqs[i].prompt != [])
    && ((exists i | 0 <= i < |reqs| :: |reqs[i].prompt| >= 2) ||
        (forall i | 0 <= i < |ids| :: ids[i] < |slots| && slots[ids[i]].rows != [] && slots[ids[i]].rows[0] == BLANK))
  }

  lemma CleanWhenLong(slots: seq<Slot>, ids: seq<nat>, reqs: seq<Request>)
    requires |ids| == |reqs| && reqs != [] && forall i | 0 <= i < |reqs| :: |reqs[i].prompt| >= 2
    ensures CleanBatch(slots, ids, reqs)
  {
    assert |reqs[0].prompt| >= 2;
  }

  /** Ragged batched prefill of the slots just assigned. */
  method PrefillAdmitted(b: Backend, ids: seq<nat>, reqs: seq<Request>) returns (starts: map<nat, Start>)
    requires b.r.Valid() && Tidy(b.r.slots) && b.r.Known(ids) && ids != []
    requires CleanBatch(b.r.slots, ids, reqs)
    modifies b.r
    ensures b.r.Valid() && Tidy(b.r.slots) && Untouched(old(b.r.slots), b.r.slots, ids)
    ensures forall i | 0 <= i < |ids| ::
              ids[i] in starts && Prefilled(b.r.batch, b.r.slots[ids[i]], reqs[i].prompt, starts[ids[i]], b.r.spec)
  {
    hide WellFormed, Fresh, Prefilled, PrefillOutcome, AllSingle, Tidy, StartsClean;
    ClearSlots(b.r, ids);
    label clear:
    var prompts := PromptsOf(reqs);
    forall i | 0 <= i < |ids| ensures StartsClean(b.r.slots[ids[i]], AllSingle(prompts)) {
      CleanSlot(old(b.r.slots), b.r.slots, ids, reqs, prompts, i);
    }
    starts := b.PrefillBatch(ids, prompts);
    forall i | 0 <= i < |ids|
      ensures ids[i] in starts && Prefilled(b.r.batch, b.r.slots[ids[i]], reqs[i].prompt, starts[ids[i]], b.r.spec)
      ensures b.r.slots[ids[i]].kvLen > 0
    {
      CleanPrefills(b.r.batch, old@clear(b.r.slots)[ids[i]], b.r.slots[ids[i]], reqs[i].prompt, AllSingle(prompts),
                    starts[ids[i]], b.r.spec);
      PrefilledIsUsed(b.r.batch, b.r.slots[ids[i]], reqs[i].prompt, starts[ids[i]], b.r.spec);
    }
    StillTidy(old@clear(b.r.slots), b.r.slots, ids);
  }

  lemma CleanSlot(before: seq<Slot>, after: seq<Slot>, ids: seq<nat>, reqs: seq<Request>, prompts: seq<seq<Token>>,
        i: nat)
    requires CleanBatch(before, ids, reqs) && i < |ids| == |prompts| && ids[i] < |before| && ids[i] < |after|
    requires after[ids[i]].rows == before[ids[i]].rows
    requires forall j | 0 <= j < |reqs| :: prompts[j] == reqs[j].prompt
    ensures StartsClean(after[ids[i]], AllSingle(prompts))
  {
  }

  lemma PrefilledIsUsed(net: Net, s: Slot, prompt: seq<Token>, start: Start, k: nat)
    requires Prefilled(net, s, prompt, start, k)
    ensures s.kvLen > 0
  {
  }

  lemma StillTidy(before: seq<Slot>, after: seq<Slot>, ids: seq<nat>)
    requires Tidy(before) && Untouched(before, after, ids)
    requires forall i | 0 <= i < |ids| :: ids[i] < |after| && after[ids[i]].kvLen > 0
    ensures Tidy(after)
  {
    forall s | 0 <= s < |after| && after[s].kvLen == 0 ensures Fresh(after[s]) {
      assert s !in ids;
    }
  }

  ghost predicate AllPrefilled(net: Net, slots: seq<Slot>, ids: seq<nat>, reqs: seq<Request>, starts: map<nat, Start>,
        from: nat, k: nat)
  {
    forall i | from <= i < |ids| && i < |reqs| ::
      ids[i] in starts && ids[i] < |slots| && Prefilled(net, slots[ids[i]], reqs[i].prompt, starts[ids[i]], k)
  }

  /** Where a batch about to be admitted lives: production slots, reference slots and margin
      slots, none in use. */
  ghost predicate Homes(active: seq<Active>, ids: seq<nat>, refs: seq<nat>, diags: seq<nat>, capacity: nat,
        numSlots: nat)
  {
    && |refs| == |diags| == |ids| && Distinct(ids) && Distinct(refs)
    && (forall i | 0 <= i < |ids| :: ids[i] < capacity <= refs[i] < numSlots && capacity <= diags[i] < numSlots)
    && (forall i, j | 0 <= i < |ids| && 0 <= j < |active| ::
          ids[i] != active[j].slot && refs[i] != active[j].refSlot && diags[i] != active[j].refSlot)
    && (forall i, j | 0 <= i < |ids| && 0 <= j < |ids| :: diags[i] != refs[j])
  }

  /** The caller's part of a home: unused reference and margin slots. */
  ghost predicate Spare(active: seq<Active>, refs: seq<nat>, diags: seq<nat>, capacity: nat, numSlots: nat) {
    && |refs| == |diags| && Distinct(refs)
    && (forall i | 0 <= i < |refs| :: capacity <= refs[i] < numSlots && capacity <= diags[i] < numSlots)
    && (forall i, j | 0 <= i < |refs| && 0 <= j < |active| ::
          refs[i] != active[j].refSlot && diags[i] != active[j].refSlot)
    && (forall i, j | 0 <= i < |refs| && 0 <= j < |refs| :: diags[i] != refs[j])
  }

  /** The reference accepts the first token the batched prefill chose. */
  ghost predicate FirstOk(single: Net, batch: Net, prompt: seq<Token>) {
    prompt != [] && Next(batch, prompt) < single.vocab && Judge(single, prompt, Next(batch, prompt)).ok
  }

  ghost predicate AllFirstOk(single: Net, batch: Net, reqs: seq<Request>) {
    forall i | 0 <= i < |reqs| :: FirstOk(single, batch, reqs[i].prompt)
  }

  lemma FirstOkAppend(single: Net, batch: Net, a: seq<Request>, b: seq<Request>)
    ensures AllFirstOk(single, batch, a + b) == (AllFirstOk(single, batch, a) && AllFirstOk(single, batch, b))
  {
    hide FirstOk;
    if AllFirstOk(single, batch, a + b) {
      forall i | 0 <= i < |a| ensures FirstOk(single, batch, a[i].prompt) {
        assert (a + b)[i] == a[i];
      }
      forall i | 0 <= i < |b| ensures FirstOk(single, batch, b[i].prompt) {
        assert (a + b)[|a| + i] == b[i];
      }
    }
  }

  /** Only which requests were judged matters, not their order. */
  lemma FirstOkPermutes(single: Net, batch: Net, a: seq<Request>, b: seq<Request>)
    requires multiset(a) == multiset(b)
    ensures AllFirstOk(single, batch, a) == AllFirstOk(single, batch, b)
  {
    FirstOkWithin(single, batch, a, b);
    FirstOkWithin(single, batch, b, a);
  }

  lemma FirstOkWithin(single: Net, batch: Net, a: seq<Request>, b: seq<Request>)
    requires multiset(b) <= multiset(a)
    ensures AllFirstOk(single, batch, a) ==> AllFirstOk(single, batch, b)
  {
    hide FirstOk;
    if AllFirstOk(single, batch, a) {
      forall i | 0 <= i < |b| ensures FirstOk(single, batch, b[i].prompt) {
        assert b[i] in multiset(b) && b[i] in multiset(a) && b[i] in a;
      }
    }
  }

  /** Give every prefilled slot its reference, and add it to the active set. */
  method Activate(r: Runner, active: seq<Active>, ids: seq<nat>, refs: seq<nat>, diags: seq<nat>, reqs: seq<Request>,
        starts: map<nat, Start>, round: nat, ghost capacity: nat)
    returns (active': seq<Active>, fine: bool)
    requires r.Valid() && Tidy(r.slots) && r.single.vocab == r.batch.vocab && |ids| == |reqs|
    requires Homes(active, ids, refs, diags, capacity, |r.slots|) && Apart(active, capacity, |r.slots|)
    requires AllLockstep(r.single, r.batch, r.spec, r.slots, active)
    requires AllPrefilled(r.batch, r.slots, ids, reqs, starts, 0, r.spec)
    modifies r
    ensures r.Valid() && Tidy(r.slots) && |r.slots| == |old(r.slots)|
    ensures AllLockstep(r.single, r.batch, r.spec, r.slots, active')
    ensures Joined(active, active', ids, refs, reqs, round)
    ensures fine == forall i | 0 <= i < |ids| :: FirstOk(r.single, r.batch, reqs[i].prompt)
  {
    hide Runner.Valid, Fresh, Lockstep, Tidy, Prefilled, News, FirstOk, SlotsOf, RefsOf, AllLockstep, AllPrefilled;
    active', fine := active, true;
    for i := 0 to |ids|
      invariant r.Valid() && Tidy(r.slots) && |r.slots| == |old(r.slots)|
      invariant |active'| == |active| + i && active'[..|active|] == active
      invariant forall j | 0 <= j < i :: News(active'[|active| + j], ids[j], refs[j], reqs[j], round)
      invariant forall j | 0 <= j < |active'| :: active'[j].slot < capacity
      invariant forall j, m | 0 <= j < |active'| && i <= m < |ids| ::
                  active'[j].refSlot != refs[m] && active'[j].refSlot != diags[m]
      invariant AllLockstep(r.single, r.batch, r.spec, r.slots, active')
      invariant AllPrefilled(r.batch, r.slots, ids, reqs, starts, i, r.spec)
      invariant fine == forall j | 0 <= j < i :: FirstOk(r.single, r.batch, reqs[j].prompt)
    {
      label before:
      PrefilledPrompt(r.batch, r.slots, ids, reqs, starts, i, r.spec);
      var start := starts[ids[i]];
      var a, ok := AdmitOne(r, ids[i], refs[i], diags[i], reqs[i], start, round);
      FirstIs(r.single, r.batch, reqs[i].prompt, start.anchor);
      JoinLockstep(r.single, r.batch, r.spec, old@before(r.slots), r.slots, active', a, refs[i], diags[i]);
      OthersPrefilled(r.batch, old@before(r.slots), r.slots, ids, reqs, starts, i, refs[i], diags[i], r.spec);
      NewsOf(a, ids[i], refs[i], reqs[i], round);
      active', fine := active' + [a], fine && ok;
    }
  }

  /** Admitting one more touches nobody already active. */
  lemma JoinLockstep(single: Net, batch: Net, spec: nat, before: seq<Slot>, after: seq<Slot>, active: seq<Active>,
        a: Active, ref: nat, diag: nat)
    requires AllLockstep(single, batch, spec, before, active) && Untouched(before, after, [ref, diag])
    requires Lockstep(single, batch, spec, after, a)
    requires forall j | 0 <= j < |active| ::
               active[j].slot != ref && active[j].slot != diag && active[j].refSlot != ref && active[j].refSlot != diag
    ensures AllLockstep(single, batch, spec, after, active + [a])
  {
    hide Lockstep;
    forall j | 0 <= j < |active| ensures Lockstep(single, batch, spec, after, active[j]) {
      LockstepInRange(single, batch, spec, before, active[j]);
      LockstepFrame(single, batch, spec, before, after, active[j]);
    }
  }

  lemma FirstIs(single: Net, batch: Net, prompt: seq<Token>, anchor: Token)
    requires prompt != [] && anchor == Next(batch, prompt) < single.vocab
    ensures FirstOk(single, batch, prompt) == Judge(single, prompt, anchor).ok
  {
  }

  lemma PrefilledPrompt(net: Net, slots: seq<Slot>, ids: seq<nat>, reqs: seq<Request>, starts: map<nat, Start>, i: nat,
        k: nat)
    requires AllPrefilled(net, slots, ids, reqs, starts, i, k) && i < |ids| == |reqs|
    ensures ids[i] in starts && ids[i] < |slots| && reqs[i].prompt != []
    ensures Prefilled(net, slots[ids[i]], reqs[i].prompt, starts[ids[i]], k)
  {
  }

  /** Admitting one more leaves the slots still to be admitted as they were. */
  lemma OthersPrefilled(net: Net, before: seq<Slot>, after: seq<Slot>, ids: seq<nat>, reqs: seq<Request>,
        starts: map<nat, Start>, i: nat, ref: nat, diag: nat, k: nat)
    requires AllPrefilled(net, before, ids, reqs, starts, i, k) && Untouched(before, after, [ref, diag])
    requires forall j | 0 <= j < |ids| :: ids[j] != ref && ids[j] != diag
    ensures AllPrefilled(net, after, ids, reqs, starts, i + 1, k)
  {
    hide Prefilled;
  }

  lemma NewsOf(a: Active, slot: nat, ref: nat, req: Request, round: nat)
    requires a.slot == slot && a.refSlot == ref && a.req == req && a.tokens == [] && a.admitted == round
    ensures News(a, slot, ref, req, round)
  {
  }

  /** Free slots are production slots that no active request has. */
  lemma FreeIsApart(free: seq<nat>, active: seq<Active>, capacity: nat)
    requires Partitioned(free, active, capacity)
    ensures Distinct(free) && forall i | 0 <= i < |free| :: free[i] < capacity
    ensures forall i, j | 0 <= i < |free| && 0 <= j < |active| :: free[i] != active[j].slot
  {
    hide SlotsOf, Distinct;
    var used := SlotsOf(active);
    RangeIsDistinct(capacity);
    PartsOfDistinct(free, used, multiset(Range(capacity)));
    forall i | 0 <= i < |free| ensures free[i] < capacity {
      assert free[i] in Range(capacity);
    }
    forall i, j | 0 <= i < |free| && 0 <= j < |active| ensures free[i] != active[j].slot {
      assert used[j] == active[j].slot && used[j] in used;
    }
  }

  lemma HomesOfFree(free: seq<nat>, active: seq<Active>, refs: seq<nat>, diags: seq<nat>, capacity: nat, numSlots: nat)
    requires 0 < |refs| <= |free| && capacity <= numSlots && Spare(active, refs, diags, capacity, numSlots)
    requires Partitioned(free, active, capacity)
    ensures Homes(active, free[..|refs|], refs, diags, capacity, numSlots)
  {
    hide SlotsOf, Range;
    FreeIsApart(free, active, capacity);
  }

  /** Everything `Admit` does apart from updating its own lists. */
  method AdmitBatch(b: Backend, active: seq<Active>, ids: seq<nat>, refs: seq<nat>, diags: seq<nat>, reqs: seq<Request>,
        round: nat, ghost capacity: nat)
    returns (more: seq<Active>, fine: bool)
    requires b.r.Valid() && b.r.single.vocab == b.r.batch.vocab && 0 < |ids|
    requires CleanBatch(b.r.slots, ids, reqs)
    requires Homes(active, ids, refs, diags, capacity, |b.r.slots|)
    requires Sound(b.r.single, b.r.batch, b.r.spec, b.r.slots, capacity, active)
    modifies b.r
    ensures b.r.Valid() && |b.r.slots| == |old(b.r.slots)|
    ensures Sound(b.r.single, b.r.batch, b.r.spec, b.r.slots, capacity, more)
    ensures Joined(active, more, ids, refs, reqs, round)
    ensures fine == AllFirstOk(b.r.single, b.r.batch, reqs)
  {
    hide WellFormed, Fresh, Lockstep, Tidy, Prefilled, News, SlotsOf, RefsOf, RequestsOf, Work, NeedOf, FirstOk,
         Homes, Apart, AllLockstep, AllUnfinished, Joined;
    HomesKnown(active, ids, refs, diags, capacity, |b.r.slots|);
    var starts := PrefillAdmitted(b, ids, reqs);
    FrameAll(b.r.single, b.r.batch, b.r.spec, old(b.r.slots), b.r.slots, active, ids, refs, diags, capacity);
    more, fine := Activate(b.r, active, ids, refs, diags, reqs, starts, round, capacity);
    JoinedLists(active, more, ids, refs, reqs, round);
    AdmittedApart(active, more, ids, refs, diags, reqs, round, capacity, |b.r.slots|);
  }

  // ---------------------------------------------------------------------------
  // The end of a round.
  // ---------------------------------------------------------------------------

  /** Sort the updated requests into those that go on and those that are done. */
  method Sort(updated: seq<Active>, round: nat) returns (still: seq<Active>, done: seq<Finished>, freed: seq<nat>)
    ensures still == Still(updated) && done == DoneAll(Ended(updated), round) && freed == SlotsOf(Ended(updated))
  {
    hide Still, Ended, SlotsOf, DoneAll;
    still, done, freed := [], [], [];
    SortNil(round);
    for i := 0 to |updated|
      invariant still == Still(updated[..i]) && done == DoneAll(Ended(updated[..i]), round)
      invariant freed == SlotsOf(Ended(updated[..i]))
    {
      var a := updated[i];
      assert updated[..i + 1] == updated[..i] + [a];
      SplitSnoc(updated[..i], a);
      if |a.tokens| >= a.req.maxTokens {
        Snoc(Ended(updated[..i]), a);
        DoneAllSnoc(Ended(updated[..i]), a, round);
        done, freed := done + [Finished(a.req, a.slot, a.tokens, a.admitted, round)], freed + [a.slot];
      } else {
        still := still + [a];
      }
    }
    assert updated[..|updated|] == updated;
  }

  lemma SortNil(round: nat)
    ensures Still([]) == [] && Ended([]) == [] && SlotsOf([]) == [] && DoneAll([], round) == []
  {
  }

  method ReleaseAll(r: Runner, freed: seq<nat>)
    requires r.Valid() && r.Known(freed) && Tidy(r.slots)
    modifies r
    ensures r.Valid() && Tidy(r.slots) && Untouched(old(r.slots), r.slots, freed)
    ensures forall i | 0 <= i < |freed| :: Fresh(r.slots[freed[i]])
  {
    for i := 0 to |freed|
      invariant r.Valid() && Tidy(r.slots) && Untouched(old(r.slots), r.slots, freed[..i])
      invariant forall j | 0 <= j < i :: Fresh(r.slots[freed[j]])
    {
      r.ResetSlot(freed[i]);
    }
    assert freed[..|freed|] == freed;
  }

  lemma EndedIsServed(single: Net, batch: Net, spec: nat, slots: seq<Slot>, was: Active, round: Round, f: Finished)
    requires Unfinished(was) && Lockstep(single, batch, spec, slots, Moved(was, round))
    requires |round.decision.committed| <= spec + 1
    requires f.req == was.req && f.tokens == Moved(was, round).tokens && f.req.maxTokens <= |f.tokens| && f.tokens != []
    ensures WellServed(f, spec) && Lossless(batch, f)
  {
    hide Next, Serving, InPlace, Drafts;
    var a := Moved(was, round);
    GreedyIsUnique(batch, a.req.prompt, [a.first] + a.tokens);
    assert ([a.first] + a.tokens)[0] == Next(batch, a.req.prompt + ([a.first] + a.tokens)[..0]);
    assert a.req.prompt + ([a.first] + a.tokens)[..0] == a.req.prompt;
  }

  /** A round commits between one token and one more than was drafted. */
  lemma HalfCommits(single: Net, batch: Net, spec: nat, slots: seq<Slot>, a: Active, round: Round)
    requires HalfStep(single, batch, spec, slots, a, round)
    ensures 1 <= |round.decision.committed| <= spec + 1
    ensures |Moved(a, round).tokens| == |a.tokens| + |round.decision.committed|
  {
    hide Next, Serving, InPlace, Drafts;
  }

  lemma HomesKnown(active: seq<Active>, ids: seq<nat>, refs: seq<nat>, diags: seq<nat>, capacity: nat, numSlots: nat)
    requires Homes(active, ids, refs, diags, capacity, numSlots)
    ensures |refs| == |ids| && Distinct(ids) && forall i | 0 <= i < |ids| :: ids[i] < numSlots
  {
  }

  /** Prefilling other slots leaves every active request where it was. */
  lemma FrameAll(single: Net, batch: Net, spec: nat, before: seq<Slot>, after: seq<Slot>, active: seq<Active>,
        ids: seq<nat>, refs: seq<nat>, diags: seq<nat>, capacity: nat)
    requires AllLockstep(single, batch, spec, before, active) && Untouched(before, after, ids)
    requires Homes(active, ids, refs, diags, capacity, |before|) && Apart(active, capacity, |before|)
    ensures AllLockstep(single, batch, spec, after, active)
  {
    hide Lockstep;
    forall j | 0 <= j < |active| ensures Lockstep(single, batch, spec, after, active[j]) {
      LockstepFrame(single, batch, spec, before, after, active[j]);
    }
  }

  lemma SameModelsAgree(net: Net, reqs: seq<Request>)
    requires forall i | 0 <= i < |reqs| :: reqs[i].prompt != []
    ensures AllFirstOk(net, net, reqs)
  {
    forall i | 0 <= i < |reqs| ensures FirstOk(net, net, reqs[i].prompt) {
      ExactIsOk(net, reqs[i].prompt);
    }
  }

  lemma {:induction false} JoinedAt(active: seq<Active>, more: seq<Active>, ids: seq<nat>, refs: seq<nat>,
        reqs: seq<Request>, round: nat, j: nat)
    requires Joined(active, more, ids, refs, reqs, round) && j < |more|
    ensures more[j].slot == (SlotsOf(active) + ids)[j] && more[j].refSlot == (RefsOf(active) + refs)[j]
    ensures more[j].req == (RequestsOf(active) + reqs)[j]
    ensures if j < |active| then more[j] == active[j] else Unfinished(more[j]) && more[j].tokens == []
  {
    hide SlotsOf, RefsOf, RequestsOf;
    if j < |active| {
      assert more[j] == more[..|active|][j];
    } else {
      assert News(more[|active| + (j - |active|)], ids[j - |active|], refs[j - |active|], reqs[j - |active|], round);
    }
  }

  lemma {:induction false} JoinedLists(active: seq<Active>, more: seq<Active>, ids: seq<nat>, refs: seq<nat>,
        reqs: seq<Request>, round: nat)
    requires Joined(active, more, ids, refs, reqs, round)
    ensures SlotsOf(more) == SlotsOf(active) + ids && RefsOf(more) == RefsOf(active) + refs
    ensures RequestsOf(more) == RequestsOf(active) + reqs
    ensures Work(more) == Work(active) + NeedOf(reqs)
    ensures AllUnfinished(active) ==> AllUnfinished(more)
  {
    hide SlotsOf, RefsOf, RequestsOf, Work, NeedOf, Joined, Unfinished;
    JoinedWork(active, more, ids, refs, reqs, round);
    forall j | 0 <= j < |more|
      ensures SlotsOf(more)[j] == (SlotsOf(active) + ids)[j] && RefsOf(more)[j] == (RefsOf(active) + refs)[j]
      ensures RequestsOf(more)[j] == (RequestsOf(active) + reqs)[j]
      ensures if j < |active| then more[j] == active[j] else Unfinished(more[j])
    {
      JoinedAt(active, more, ids, refs, reqs, round, j);
    }
    assert SlotsOf(more) == SlotsOf(active) + ids;
    assert RefsOf(more) == RefsOf(active) + refs;
    assert RequestsOf(more) == RequestsOf(active) + reqs;
  }

  lemma {:induction false} JoinedWork(active: seq<Active>, more: seq<Active>, ids: seq<nat>, refs: seq<nat>,
        reqs: seq<Request>, round: nat)
    requires Joined(active, more, ids, refs, reqs, round)
    ensures |more| == |active| + |ids| && |ids| == |refs| == |reqs| && Work(more) == Work(active) + NeedOf(reqs)
  {
    hide Work, NeedOf;
    forall i | 0 <= i < |reqs| ensures more[|active| + i].req == reqs[i] && more[|active| + i].tokens == [] {
      assert News(more[|active| + i], ids[i], refs[i], reqs[i], round);
    }
    WorkOfNews(active, more, reqs);
  }

  lemma AdmittedApart(active: seq<Active>, more: seq<Active>, ids: seq<nat>, refs: seq<nat>, diags: seq<nat>,
        reqs: seq<Request>, round: nat, capacity: nat, numSlots: nat)
    requires Apart(active, capacity, numSlots) && Homes(active, ids, refs, diags, capacity, numSlots)
    requires Joined(active, more, ids, refs, reqs, round)
    ensures Apart(more, capacity, numSlots)
  {
    hide SlotsOf, RefsOf, RequestsOf, Joined, Distinct;
    JoinedLists(active, more, ids, refs, reqs, round);
    DistinctJoin(SlotsOf(active), ids);
    DistinctJoin(RefsOf(active), refs);
    forall j | 0 <= j < |more| ensures more[j].slot < capacity <= more[j].refSlot < numSlots {
      JoinedAt(active, more, ids, refs, reqs, round, j);
    }
  }

  lemma DistinctJoin(a: seq<nat>, b: seq<nat>)
    requires Distinct(a) && Distinct(b) && forall i, j | 0 <= i < |a| && 0 <= j < |b| :: a[i] != b[j]
    ensures Distinct(a + b)
  {
  }

  lemma {:induction false} WorkOfNews(active: seq<Active>, more: seq<Active>, reqs: seq<Request>)
    requires |more| == |active| + |reqs| && more[..|active|] == active
    requires forall i | 0 <= i < |reqs| :: more[|active| + i].req == reqs[i] && more[|active| + i].tokens == []
    ensures Work(more) == Work(active) + NeedOf(reqs)
    decreases |reqs|
  {
    if reqs == [] {
      assert more == active;
    } else {
      var n := |reqs| - 1;
      var shorter, front := more[..|more| - 1], reqs[..n];
      forall i | 0 <= i < n ensures shorter[|active| + i].req == front[i] && shorter[|active| + i].tokens == [] {
        assert shorter[|active| + i] == more[|active| + i] && front[i] == reqs[i];
      }
      WorkOfNews(active, shorter, front);
      assert more[|active| + n].req == reqs[n];
    }
  }

  // ---------------------------------------------------------------------------
  // What the log says about a finished request.
  // ---------------------------------------------------------------------------

  /** The row is the reference's verdict at the output's first m tokens, on the m-th of them. */
  ghost predicate JudgedAt(single: Net, batch: Net, row: Row, f: Finished, m: nat)
    requires m <= |f.tokens|
  {
    && row.req == f.req.id && f.req.prompt != [] && 1 <= m && f.tokens[m - 1] < single.vocab
    && var h := (f.req.prompt + [Next(batch, f.req.prompt)] + f.tokens)[..|f.req.prompt| + m];
       row.report == Judge(single, h, f.tokens[m - 1])
  }

  /** The round that committed the output's p-th token has its own true row, about that round's
      last token, which lies at most one round further on. */
  ghost predicate TokenRecorded(single: Net, batch: Net, spec: nat, log: seq<Row>, f: Finished, p: nat) {
    exists i, m | 0 <= i < |log| && p < m <= p + spec + 1 && m <= |f.tokens| :: JudgedAt(single, batch, log[i], f, m)
  }

  ghost predicate Recorded(single: Net, batch: Net, spec: nat, log: seq<Row>, f: Finished) {
    forall p | 0 <= p < |f.tokens| :: TokenRecorded(single, batch, spec, log, f, p)
  }

  /** The round of a stay that committed its p-th token. */
  lemma {:induction false} RoundOfToken(seen: seq<Sighting>, stay: Stay, p: nat) returns (i: nat)
    requires p < |Said(seen, stay)|
    ensures i < |seen| && StayOf(seen[i].before) == stay
    ensures |Said(seen[..i], stay)| <= p < |Said(seen[..i], stay)| + |seen[i].round.decision.committed|
    ensures Said(seen[..i], stay) + seen[i].round.decision.committed <= Said(seen, stay)
  {
    var n := |seen| - 1;
    var front := seen[..n];
    if p < |Said(front, stay)| {
      i := RoundOfToken(front, stay, p);
      assert front[..i] == seen[..i];
    } else {
      i := n;
    }
  }

  /** Nothing that was committed escaped the reference. */
  lemma {:induction false} FinishedIsRecorded(single: Net, batch: Net, spec: nat, log: seq<Row>, seen: seq<Sighting>,
        active: seq<Active>, finished: seq<Finished>, round: nat, k: nat)
    requires LogIsTrue(single, batch, log, seen) && Told(seen, active, finished, round, spec)
    requires AllServed(batch, spec, finished) && k < |finished|
    ensures Recorded(single, batch, spec, log, finished[k])
  {
    hide Said, Judge, Next, JudgedAt, RowIsTrue, Lossless, WellServed;
    var f := finished[k];
    forall p | 0 <= p < |f.tokens| ensures TokenRecorded(single, batch, spec, log, f, p) {
      var i := RoundOfToken(seen, StayDone(f), p);
      assert Follows(seen, i, round, spec);
      var m := |seen[i].before.tokens| + |seen[i].round.decision.committed|;
      RowJudges(single, batch, log[i], seen[i], f, m);
    }
  }

  lemma {:induction false} RowJudges(single: Net, batch: Net, row: Row, seen: Sighting, f: Finished, m: nat)
    requires RowIsTrue(single, batch, row, seen) && StayOf(seen.before) == StayDone(f) && Lossless(batch, f)
    requires 1 <= m == |seen.before.tokens + seen.round.decision.committed|
    requires seen.before.tokens + seen.round.decision.committed <= f.tokens
    ensures m <= |f.tokens| && JudgedAt(single, batch, row, f, m)
  {
    hide Judge, Next, IsGreedy, Tail;
    var prompt, first, toks := f.req.prompt, Next(batch, f.req.prompt), f.tokens;
    var h := HistoryOf(Moved(seen.before, seen.round));
    var out := [first] + toks;
    assert toks[..m] == seen.before.tokens + seen.round.decision.committed;
    assert h == (prompt + [first] + toks[..m])[..|prompt| + m];
    assert prompt + [first] + toks == prompt + [first] + toks[..m] + toks[m..];
    assert h == (prompt + [first] + toks)[..|prompt| + m];
    GreedyIsUnique(batch, prompt, out);
    GreedyAt(batch, prompt, out, m);
    assert h == prompt + out[..m];
  }

  lemma GreedyAt(net: Net, prompt: seq<Token>, out: seq<Token>, m: nat)
    requires prompt != [] && IsGreedy(net, prompt, out) && m < |out|
    ensures out[m] == Next(net, prompt + out[..m])
  {
    hide Next;
  }

  // ---------------------------------------------------------------------------
  // One whole round.
  // ---------------------------------------------------------------------------

  lemma SteppedLists(active: seq<Active>, updated: seq<Active>, seen: seq<Sighting>, spec: nat)
    requires Stepped(active, updated, seen, spec)
    ensures SlotsOf(updated) == SlotsOf(active) && RefsOf(updated) == RefsOf(active)
    ensures RequestsOf(updated) == RequestsOf(active)
    ensures Work(Still(updated)) + |active| <= Work(active)
  {
    hide SlotsOf, RefsOf, RequestsOf, Work, Still, Stepped;
    assert |updated| == |active| by {
      SteppedShape(active, updated, seen, spec);
    }
    forall i | 0 <= i < |active|
      ensures SlotsOf(updated)[i] == SlotsOf(active)[i] && RefsOf(updated)[i] == RefsOf(active)[i]
      ensures RequestsOf(updated)[i] == RequestsOf(active)[i] && |active[i].tokens| < |updated[i].tokens|
    {
      SteppedAt(active, updated, seen, spec, i);
    }
    RoundShrinksWork(active, updated);
  }

  lemma ApartMeans(active: seq<Active>, capacity: nat, numSlots: nat)
    requires Apart(active, capacity, numSlots)
    ensures Distinct(SlotsOf(active)) && Distinct(RefsOf(active))
    ensures forall i | 0 <= i < |active| ::
              SlotsOf(active)[i] < numSlots && active[i].slot < capacity <= active[i].refSlot
    ensures forall i, j | 0 <= i < |active| && 0 <= j < |active| :: active[i].slot != active[j].refSlot
    ensures forall i | 0 <= i < |active| :: active[i].refSlot !in SlotsOf(active)
  {
    hide SlotsOf, RefsOf;
  }

  /** Verify everything active, judge every choice, split off what is done and release it. */
  method RoundBatch(b: Backend, active: seq<Active>, round: nat, ghost capacity: nat)
    returns (still: seq<Active>, done: seq<Finished>, freed: seq<nat>, rows: seq<Row>, ghost seen: seq<Sighting>,
             ghost updated: seq<Active>)
    requires b.r.Valid() && b.r.single.vocab == b.r.batch.vocab && active != [] && capacity <= |b.r.slots|
    requires Sound(b.r.single, b.r.batch, b.r.spec, b.r.slots, capacity, active)
    modifies b.r
    ensures b.r.Valid() && |b.r.slots| == |old(b.r.slots)|
    ensures Sound(b.r.single, b.r.batch, b.r.spec, b.r.slots, capacity, still)
    ensures Stepped(active, updated, seen, b.r.spec) && LogIsTrue(b.r.single, b.r.batch, rows, seen)
    ensures StampedAt(rows, round)
    ensures still == Still(updated) && done == DoneAll(Ended(updated), round) && freed == SlotsOf(Ended(updated))
    ensures AllServed(b.r.batch, b.r.spec, done)
  {
    hide SlotsOf, RefsOf, Tidy, WellFormed, Apart, AllLockstep, AllHalf, HalfStep, Moved, Still, Ended, DoneAll,
         LogIsTrue, AllServed, AllUnfinished, Fresh;
    ApartMeans(active, capacity, |b.r.slots|);
    var rounds := VerifyActive(b, active);
    HalvesCommit(b.r.single, b.r.batch, b.r.spec, b.r.slots, active, rounds);
    var ups;
    ups, rows, seen := CheckAll(b, active, rounds, round);
    updated := ups;
    label checked:
    assert Stepped(active, updated, seen, b.r.spec);
    hide Stepped;
    still, done, freed := Sort(ups, round);
    SteppedApart(active, updated, seen, b.r.spec, capacity, |b.r.slots|);
    ReleaseAll(b.r, freed);
    StillLockstep(b.r.single, b.r.batch, b.r.spec, old@checked(b.r.slots), b.r.slots, updated, capacity);
    StillUnfinished(updated);
    AllEndedServed(b.r.single, b.r.batch, b.r.spec, old@checked(b.r.slots), active, updated, seen, round);
  }

  ghost predicate StampedAt(rows: seq<Row>, round: nat) {
    forall i | 0 <= i < |rows| :: rows[i].round == round
  }

  lemma HalvesCommit(single: Net, batch: Net, spec: nat, slots: seq<Slot>, active: seq<Active>, rounds: seq<Round>)
    requires AllHalf(single, batch, spec, slots, active, rounds)
    ensures |rounds| == |active|
    ensures forall i | 0 <= i < |active| :: 1 <= |rounds[i].decision.committed| <= spec + 1
  {
    hide HalfStep;
    forall i | 0 <= i < |active| ensures 1 <= |rounds[i].decision.committed| <= spec + 1 {
      HalfCommits(single, batch, spec, slots, active[i], rounds[i]);
    }
  }

  /** Both halves of the split keep to their own slots. */
  lemma SteppedApart(active: seq<Active>, updated: seq<Active>, seen: seq<Sighting>, spec: nat, capacity: nat,
        numSlots: nat)
    requires Apart(active, capacity, numSlots) && Stepped(active, updated, seen, spec) && capacity <= numSlots
    ensures Apart(updated, capacity, numSlots) && Apart(Still(updated), capacity, numSlots)
    ensures Distinct(SlotsOf(Ended(updated)))
    ensures forall i | 0 <= i < |Ended(updated)| :: SlotsOf(Ended(updated))[i] < capacity
    ensures forall a | a in Still(updated) ::
              a.slot !in SlotsOf(Ended(updated)) && a.refSlot !in SlotsOf(Ended(updated))
  {
    hide SlotsOf, RefsOf, RequestsOf, Work, Still, Ended, Stepped, Distinct, Moved;
    SteppedLists(active, updated, seen, spec);
    SteppedShape(active, updated, seen, spec);
    forall i | 0 <= i < |updated| ensures updated[i].slot < capacity <= updated[i].refSlot < numSlots {
      SteppedAt(active, updated, seen, spec, i);
    }
    SplitApart(updated, capacity, numSlots);
  }

  lemma SplitApart(us: seq<Active>, capacity: nat, numSlots: nat)
    requires Apart(us, capacity, numSlots)
    ensures Apart(Still(us), capacity, numSlots)
    ensures Distinct(SlotsOf(Ended(us))) && forall i | 0 <= i < |Ended(us)| :: SlotsOf(Ended(us))[i] < capacity
    ensures forall a | a in Still(us) :: a.slot !in SlotsOf(Ended(us)) && a.refSlot !in SlotsOf(Ended(us))
  {
    hide SlotsOf, RefsOf, Still, Ended, Distinct;
    SplitSlots(us);
    SplitRefs(us);
  }

  lemma SplitSlots(us: seq<Active>)
    requires Distinct(SlotsOf(us))
    ensures Distinct(SlotsOf(Still(us))) && Distinct(SlotsOf(Ended(us)))
    ensures forall a | a in Still(us) :: a.slot !in SlotsOf(Ended(us))
  {
    hide SlotsOf, Still, Ended, Distinct;
    var s := SlotsOf(Still(us));
    SlotsSplit(us);
    CountAll(SlotsOf(us));
    PartsOfDistinct(s, SlotsOf(Ended(us)), multiset(SlotsOf(us)));
    forall a | a in Still(us) ensures a.slot !in SlotsOf(Ended(us)) {
      var i :| 0 <= i < |Still(us)| && Still(us)[i] == a;
      assert s[i] == a.slot;
    }
  }

  lemma SplitRefs(us: seq<Active>)
    requires Distinct(RefsOf(us))
    ensures Distinct(RefsOf(Still(us)))
  {
    hide RefsOf, Still, Ended, Distinct;
    RefsSplit(us);
    CountAll(RefsOf(us));
    PartsOfDistinct(RefsOf(Still(us)), RefsOf(Ended(us)), multiset(RefsOf(us)));
  }

  lemma StillLockstep(single: Net, batch: Net, spec: nat, before: seq<Slot>, after: seq<Slot>, us: seq<Active>,
        capacity: nat)
    requires AllLockstep(single, batch, spec, before, us) && Apart(us, capacity, |before|)
    requires Untouched(before, after, SlotsOf(Ended(us)))
    ensures AllLockstep(single, batch, spec, after, Still(us))
  {
    hide SlotsOf, RefsOf, Still, Ended, Lockstep, Apart;
    SplitApart(us, capacity, |before|);
    var still := Still(us);
    forall i | 0 <= i < |still| ensures Lockstep(single, batch, spec, after, still[i]) {
      assert still[i] in us;
      LockstepInRange(single, batch, spec, before, still[i]);
      LockstepFrame(single, batch, spec, before, after, still[i]);
    }
  }

  lemma AllEndedServed(single: Net, batch: Net, spec: nat, slots: seq<Slot>, active: seq<Active>, updated: seq<Active>,
        seen: seq<Sighting>, round: nat)
    requires AllUnfinished(active) && Stepped(active, updated, seen, spec)
    requires AllLockstep(single, batch, spec, slots, updated)
    ensures AllServed(batch, spec, DoneAll(Ended(updated), round))
  {
    hide Lockstep, Ended, DoneAll, Unfinished, WellServed, Lossless, Moved, Stepped;
    var ended, done := Ended(updated), DoneAll(Ended(updated), round);
    SteppedShape(active, updated, seen, spec);
    forall i | 0 <= i < |done| ensures WellServed(done[i], spec) && Lossless(batch, done[i]) {
      assert ended[i] in updated;
      var j :| 0 <= j < |updated| && updated[j] == ended[i];
      SteppedAt(active, updated, seen, spec, j);
      EndedIsServed(single, batch, spec, slots, active[j], seen[j].round, done[i]);
    }
  }

  lemma SoundIsDistinct(single: Net, batch: Net, spec: nat, slots: seq<Slot>, capacity: nat, active: seq<Active>)
    requires Sound(single, batch, spec, slots, capacity, active)
    ensures Distinct(SlotsOf(active))
  {
  }

  lemma StillUnfinished(us: seq<Active>)
    ensures AllUnfinished(Still(us))
  {
    var k := Still(us);
    forall i | 0 <= i < |k| ensures Unfinished(k[i]) {
      assert k[i] in k;
    }
  }

  lemma ServedAppend(batch: Net, spec: nat, a: seq<Finished>, d: seq<Finished>)
    requires AllServed(batch, spec, a) && AllServed(batch, spec, d)
    ensures AllServed(batch, spec, a + d)
  {
    hide WellServed, Lossless;
  }

  lemma LogAppend(single: Net, batch: Net, log: seq<Row>, seen: seq<Sighting>, rows: seq<Row>, sights: seq<Sighting>)
    requires LogIsTrue(single, batch, log, seen) && LogIsTrue(single, batch, rows, sights)
    ensures |log| == |seen| && |rows| == |sights| && LogIsTrue(single, batch, log + rows, seen + sights)
  {
    hide RowIsTrue;
  }

  lemma LogLengths(single: Net, batch: Net, log: seq<Row>, seen: seq<Sighting>)
    requires LogIsTrue(single, batch, log, seen)
    ensures |log| == |seen|
  {
  }

  /** Those present in the round about to be served are those active. */
  lemma {:induction false} ToldPresent(seen: seq<Sighting>, active: seq<Active>, finished: seq<Finished>, round: nat,
        spec: nat)
    requires Told(seen, active, finished, round, spec)
    ensures Present(active, finished, round) == |active|
  {
    hide Said, PresentActive, PresentDone;
    AllPresent(active, round);
    NoneDone(finished, round);
  }

  /** With no slot free, every slot is taken. */
  lemma FullWhenNoneFree(free: seq<nat>, active: seq<Active>, capacity: nat)
    requires Partitioned(free, active, capacity) && free == []
    ensures |active| == capacity
  {
    assert |multiset(SlotsOf(active))| == |active| && |multiset(Range(capacity))| == capacity;
    assert multiset(free) + multiset(SlotsOf(active)) == multiset(SlotsOf(active));
  }

  /** After the split every production slot and every request is still in exactly one place. */
  lemma RoundBooks(free: seq<nat>, active: seq<Active>, updated: seq<Active>, finished: seq<Finished>, round: nat,
        capacity: nat)
    requires Partitioned(free, active, capacity) && SlotsOf(updated) == SlotsOf(active)
    requires RequestsOf(updated) == RequestsOf(active)
    ensures Partitioned(free + SlotsOf(Ended(updated)), Still(updated), capacity)
    ensures multiset(RequestsOf(Still(updated))) + multiset(DoneOf(finished + DoneAll(Ended(updated), round)))
         == multiset(RequestsOf(active)) + multiset(DoneOf(finished))
  {
    hide SlotsOf, RequestsOf, Still, Ended, DoneAll, DoneOf;
    SlotsSplit(updated);
    RequestsSplit(updated);
    DoneAppend(finished, DoneAll(Ended(updated), round), Ended(updated), round);
  }

  lemma DoneAppend(finished: seq<Finished>, done: seq<Finished>, ended: seq<Active>, round: nat)
    requires done == DoneAll(ended, round)
    ensures multiset(DoneOf(finished + done)) == multiset(DoneOf(finished)) + multiset(RequestsOf(ended))
  {
    hide DoneOf, DoneAll, RequestsOf;
    assert DoneOf(finished + done) == DoneOf(finished) + RequestsOf(ended);
  }

  /** Handing the first free slots out keeps every production slot in exactly one place. */
  lemma HandOut(free: seq<nat>, active: seq<Active>, more: seq<Active>, m: nat, capacity: nat)
    requires m <= |free| && Partitioned(free, active, capacity) && SlotsOf(more) == SlotsOf(active) + free[..m]
    ensures Partitioned(free[m..], more, capacity)
  {
    hide SlotsOf, Range;
    assert free == free[..m] + free[m..];
  }

  class ServingCore {
    const b: Backend
    const capacity: nat
    var free: seq<nat>
    var active: seq<Active>
    var finished: seq<Finished>
    var log: seq<Row>
    var round: nat
    var correct: bool
    ghost var seen: seq<Sighting>
    /** Every stay so far, in order of admission. */
    ghost var entered: seq<Stay>

    ghost predicate Valid()
      reads this, b.r
    {
      && b.r.Valid() && b.r.single.vocab == b.r.batch.vocab && 1 <= capacity <= |b.r.slots|
      && Partitioned(free, active, capacity) && Sound(b.r.single, b.r.batch, b.r.spec, b.r.slots, capacity, active)
      && AllServed(b.r.batch, b.r.spec, finished) && LogIsTrue(b.r.single, b.r.batch, log, seen)
      && Told(seen, active, finished, round, b.r.spec) && Attended(log, seen, active, finished, round)
      && EntryBook(entered, active, finished, round)
      && (b.r.single == b.r.batch ==> correct)
    }

    constructor (b: Backend, capacity: nat)
      requires b.r.Valid() && b.r.single.vocab == b.r.batch.vocab && 1 <= capacity <= |b.r.slots| && Tidy(b.r.slots)
      ensures Valid() && this.b == b && this.capacity == capacity
      ensures active == [] && finished == [] && log == [] && round == 0 && free == Range(capacity) && correct
      ensures entered == []
    {
      ToldStart(b.r.spec);
      this.b := b;
      this.capacity := capacity;
      free := Range(capacity);
      active, finished, log, round, correct, seen, entered := [], [], [], 0, true, [], [];
    }

    /** Admit a batch onto the first free slots: one ragged prefill, then one reference each. */
    method Admit(reqs: seq<Request>, refs: seq<nat>, diags: seq<nat>)
      requires Valid() && 0 < |reqs| == |refs| == |diags| <= |free|
      requires CleanBatch(b.r.slots, free[..|reqs|], reqs)
      requires Spare(active, refs, diags, capacity, |b.r.slots|)
      modifies this, b.r
      ensures Valid() && |b.r.slots| == old(|b.r.slots|)
      ensures free == old(free)[|reqs|..] && Joined(old(active), active, old(free)[..|reqs|], refs, reqs, round)
      ensures RequestsOf(active) == RequestsOf(old(active)) + reqs && Work(active) == Work(old(active)) + NeedOf(reqs)
      ensures finished == old(finished) && log == old(log) && seen == old(seen) && round == old(round)
      ensures correct == (old(correct) && AllFirstOk(b.r.single, b.r.batch, reqs))
      ensures forall r: nat | r < round :: Present(active, finished, r) == Present(old(active), finished, r)
      ensures |entered| == |old(entered)| + |reqs| && entered[..|old(entered)|] == old(entered)
      ensures Opens(entered[|old(entered)|..], reqs, round)
    {
      hide Runner.Valid, SlotsOf, RequestsOf, Work, NeedOf, LogIsTrue, AllServed, Partitioned, Sound, Homes, Spare,
           Joined, AllFirstOk, Told, Attended, EntryBook, Present;
      var m := |reqs|;
      HomesOfFree(free, active, refs, diags, capacity, |b.r.slots|);
      var ids := free[..m];
      var more, fine := AdmitBatch(b, active, ids, refs, diags, reqs, round, capacity);
      if b.r.single == b.r.batch {
        SameModelsAgree(b.r.batch, reqs);
      }
      JoinedLists(active, more, ids, refs, reqs, round);
      HandOut(free, active, more, m, capacity);
      ToldJoined(seen, active, more, finished, ids, refs, reqs, round, b.r.spec);
      AttendedJoined(log, seen, active, more, finished, ids, refs, reqs, round);
      EntryBookJoined(entered, active, more, finished, ids, refs, reqs, round);
      forall r: nat | r < round ensures Present(more, finished, r) == Present(active, finished, r) {
        JoinedKeepsPresent(active, more, finished, ids, refs, reqs, round, r);
      }
      entered := entered + StaysOf(more)[|active|..];
      free, active, correct := free[m..], more, correct && fine;
    }

    /** One round: everything active advances, is judged, and leaves if it is done. */
    method ServeRound() returns (rows: seq<Row>, ghost sights: seq<Sighting>, ghost updated: seq<Active>)
      requires Valid() && active != []
      modifies this, b.r
      ensures Valid() && |b.r.slots| == old(|b.r.slots|)
      ensures Stepped(old(active), updated, sights, b.r.spec) && StampedAt(rows, old(round)) && |rows| == |sights|
      ensures seen == old(seen) + sights && log == old(log) + rows
      ensures active == Still(updated) && free == old(free) + SlotsOf(Ended(updated))
      ensures finished == old(finished) + DoneAll(Ended(updated), old(round))
      ensures multiset(RequestsOf(active)) + multiset(DoneOf(finished))
           == multiset(RequestsOf(old(active))) + multiset(DoneOf(old(finished)))
      ensures Work(active) + |old(active)| <= Work(old(active))
      ensures round == old(round) + 1 && correct == old(correct) && entered == old(entered)
      ensures forall r: nat | r < round :: Present(active, finished, r) == Present(old(active), old(finished), r)
      ensures Present(active, finished, old(round)) == |old(active)|
    {
      hide Runner.Valid, SlotsOf, RequestsOf, Work, LogIsTrue, AllServed, Partitioned, Sound, Stepped,
           Still, Ended, DoneAll, DoneOf, Told, Distinct, Attended, EntryBook, Present;
      SoundIsDistinct(b.r.single, b.r.batch, b.r.spec, b.r.slots, capacity, active);
      var still, done, freed;
      still, done, freed, rows, sights, updated := RoundBatch(b, active, round, capacity);
      SteppedLists(active, updated, sights, b.r.spec);
      RoundBooks(free, active, updated, finished, round, capacity);
      ToldStep(seen, active, updated, finished, sights, round, b.r.spec);
      LogLengths(b.r.single, b.r.batch, log, seen);
      LogLengths(b.r.single, b.r.batch, rows, sights);
      AttendedStep(log, seen, active, updated, finished, rows, sights, round, b.r.spec);
      EntryBookStep(entered, active, updated, finished, sights, b.r.spec, round);
      forall r: nat | r <= round
        ensures Present(Still(updated), finished + DoneAll(Ended(updated), round), r) == Present(active, finished, r)
      {
        RoundKeepsPresent(active, updated, finished, sights, b.r.spec, round, r);
      }
      ToldPresent(seen, active, finished, round, b.r.spec);
      ServedAppend(b.r.batch, b.r.spec, finished, done);
      LogAppend(b.r.single, b.r.batch, log, seen, rows, sights);
      active, free, finished := still, free + freed, finished + done;
      log, seen, round := log + rows, seen + sights, round + 1;
    }
  }
}
