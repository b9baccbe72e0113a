/**
  The ledger of a run: which rounds were seen for which stay in a slot, and what they
  committed.  A stay is a request in a production slot from one admission on.
 */
module Ledgers {
  import opened Network
  import opened Rosters
  import opened Runners

  datatype Stay = Stay(req: Request, slot: nat, admitted: nat)

  function StayOf(a: Active): Stay {
    Stay(a.req, a.slot, a.admitted)
  }

  function StayDone(f: Finished): Stay {
    Stay(f.req, f.slot, f.admitted)
  }

  function Moved(a: Active, round: Round): Active {
    a.(tokens := a.tokens + round.decision.committed, anchor := round.nextAnchor, drafts := round.nextDrafts)
  }

  /** What a round did to each request, oldest admission first. */
  ghost predicate Stepped(active: seq<Active>, updated: seq<Active>, seen: seq<Sighting>, spec: nat) {
    && |updated| == |seen| == |active|
    && forall i | 0 <= i < |active| ::
         && seen[i].before == active[i] && updated[i] == Moved(active[i], seen[i].round)
         && 1 <= |seen[i].round.decision.committed| <= spec + 1
  }

  lemma {:induction false} SteppedAt(active: seq<Active>, updated: seq<Active>, seen: seq<Sighting>, spec: nat, i: nat)
    requires Stepped(active, updated, seen, spec) && i < |active|
    ensures updated[i].slot == active[i].slot && updated[i].refSlot == active[i].refSlot
    ensures updated[i].req == active[i].req && updated[i].admitted == active[i].admitted
    ensures |active[i].tokens| < |updated[i].tokens| <= |active[i].tokens| + spec + 1
    ensures updated[i] == Moved(active[i], seen[i].round) && seen[i].before == active[i]
    ensures 1 <= |seen[i].round.decision.committed| <= spec + 1
  {
  }

  lemma {:induction false} SteppedShape(active: seq<Active>, updated: seq<Active>, seen: seq<Sighting>, spec: nat)
    requires Stepped(active, updated, seen, spec)
    ensures |updated| == |seen| == |active|
  {
  }

  /** A newly admitted request. */
  predicate News(a: Active, slot: nat, ref: nat, req: Request, round: nat) {
    a.slot == slot && a.refSlot == ref && a.req == req && a.tokens == [] && a.admitted == round
  }

  /** The active set after a batch joined it, in admission order. */
  ghost predicate Joined(active: seq<Active>, more: seq<Active>, ids: seq<nat>, refs: seq<nat>, reqs: seq<Request>,
        round: nat)
  {
    && |ids| == |refs| == |reqs| && |more| == |active| + |ids| && more[..|active|] == active
    && forall i | 0 <= i < |ids| :: News(more[|active| + i], ids[i], refs[i], reqs[i], round)
  }

  // ---------------------------------------------------------------------------
  // What was seen of a stay.
  // ---------------------------------------------------------------------------

  /** Everything the rounds seen for a stay committed, in order. */
  ghost function Said(seen: seq<Sighting>, stay: Stay): seq<Token> {
    if seen == [] then []
    else
      var last := seen[|seen| - 1];
      Said(seen[..|seen| - 1], stay) + if StayOf(last.before) == stay then last.round.decision.committed else []
  }

  /** A round starts from what the earlier rounds of its stay committed, and commits at least one
      token. */
  ghost predicate Follows(seen: seq<Sighting>, i: nat, round: nat, spec: nat)
    requires i < |seen|
  {
    && seen[i].before.admitted < round && seen[i].before.tokens == Said(seen[..i], StayOf(seen[i].before))
    && 1 <= |seen[i].round.decision.committed| <= spec + 1
  }

  /** The rounds seen account for every token of every request, active or finished, and no two
      stays are confused. */
  ghost predicate Told(seen: seq<Sighting>, active: seq<Active>, finished: seq<Finished>, round: nat, spec: nat) {
    && (forall i | 0 <= i < |seen| :: Follows(seen, i, round, spec))
    && (forall i | 0 <= i < |active| ::
          active[i].admitted <= round && Said(seen, StayOf(active[i])) == active[i].tokens)
    && (forall i | 0 <= i < |finished| ::
          && finished[i].admitted <= finished[i].round < round
          && Said(seen, StayDone(finished[i])) == finished[i].tokens)
    && (forall i, j | 0 <= i < |active| && 0 <= j < |finished| :: StayOf(active[i]) != StayDone(finished[j]))
  }

  lemma {:induction false} ToldStart(spec: nat)
    ensures Told([], [], [], 0, spec)
  {
  }

  lemma {:induction false} ToldLater(seen: seq<Sighting>, active: seq<Active>, finished: seq<Finished>, round: nat,
        spec: nat)
    requires Told(seen, active, finished, round, spec)
    ensures Told(seen, active, finished, round + 1, spec)
  {
    hide Said;
    var later := round + 1;
    forall i | 0 <= i < |seen| ensures Follows(seen, i, later, spec) {
      assert Follows(seen, i, round, spec);
    }
  }

  lemma {:induction false} SaidNothing(seen: seq<Sighting>, stay: Stay)
    requires forall i | 0 <= i < |seen| :: StayOf(seen[i].before) != stay
    ensures Said(seen, stay) == []
  {
    if seen != [] {
      SaidNothing(seen[..|seen| - 1], stay);
    }
  }

  lemma SaidSnoc(seen: seq<Sighting>, last: Sighting, stay: Stay)
    ensures Said(seen + [last], stay)
         == Said(seen, stay) + if StayOf(last.before) == stay then last.round.decision.committed else []
  {
    assert (seen + [last])[..|seen|] == seen;
  }

  /** Admission opens stays nobody has seen anything of. */
  lemma {:induction false} ToldJoined(seen: seq<Sighting>, active: seq<Active>, more: seq<Active>,
        finished: seq<Finished>, ids: seq<nat>, refs: seq<nat>, reqs: seq<Request>, round: nat, spec: nat)
    requires Told(seen, active, finished, round, spec) && Joined(active, more, ids, refs, reqs, round)
    ensures Told(seen, more, finished, round, spec)
  {
    hide Said;
    forall j | 0 <= j < |more|
      ensures more[j].admitted <= round && Said(seen, StayOf(more[j])) == more[j].tokens
      ensures forall k | 0 <= k < |finished| :: StayOf(more[j]) != StayDone(finished[k])
    {
      if j < |active| {
        assert more[j] == more[..|active|][j];
      } else {
        var i := j - |active|;
        assert News(more[|active| + i], ids[i], refs[i], reqs[i], round);
        forall k | 0 <= k < |seen| ensures StayOf(seen[k].before) != StayOf(more[j]) {
          assert Follows(seen, k, round, spec);
        }
        SaidNothing(seen, StayOf(more[j]));
      }
    }
  }

  /** One round adds to a stay exactly what that round committed for it. */
  lemma {:induction false} SaidRound(seen: seq<Sighting>, active: seq<Active>, sights: seq<Sighting>, n: nat,
        stay: Stay, hit: int)
    requires n <= |sights| == |active| && Distinct(SlotsOf(active))
    requires forall i | 0 <= i < |active| :: sights[i].before == active[i]
    requires hit == -1 || (0 <= hit < |active| && StayOf(active[hit]) == stay)
    requires hit == -1 ==> forall i | 0 <= i < n :: StayOf(active[i]) != stay
    ensures Said(seen + sights[..n], stay)
         == Said(seen, stay) + if 0 <= hit < n then sights[hit].round.decision.committed else []
    decreases n
  {
    hide Said;
    if n == 0 {
      assert seen + sights[..0] == seen;
    } else {
      assert seen + sights[..n] == seen + sights[..n - 1] + [sights[n - 1]];
      SaidSnoc(seen + sights[..n - 1], sights[n - 1], stay);
      if hit != n - 1 && 0 <= hit {
        assert SlotsOf(active)[hit] != SlotsOf(active)[n - 1];
      }
      SaidRound(seen, active, sights, n - 1, stay, hit);
    }
  }

  lemma {:induction false} FollowsRound(seen: seq<Sighting>, active: seq<Active>, updated: seq<Active>,
        finished: seq<Finished>, sights: seq<Sighting>, round: nat, spec: nat, k: nat)
    requires Told(seen, active, finished, round, spec) && Stepped(active, updated, sights, spec)
    requires Distinct(SlotsOf(active))
    requires k < |seen + sights|
    ensures Follows(seen + sights, k, round + 1, spec)
  {
    hide Said, SlotsOf;
    var all := seen + sights;
    if k < |seen| {
      assert Follows(seen, k, round, spec) && all[k] == seen[k] && all[..k] == seen[..k];
    } else {
      var i := k - |seen|;
      assert all[k] == sights[i] && all[..k] == seen + sights[..i];
      SaidRound(seen, active, sights, i, StayOf(active[i]), i);
    }
  }

  /** After a round every stay, going on or ended, is told in full. */
  lemma {:induction false} ToldRound(seen: seq<Sighting>, active: seq<Active>, updated: seq<Active>,
        finished: seq<Finished>, sights: seq<Sighting>, round: nat, spec: nat, i: nat)
    requires Told(seen, active, finished, round, spec) && Stepped(active, updated, sights, spec)
    requires Distinct(SlotsOf(active))
    requires i < |active|
    ensures |updated| == |active| && StayOf(updated[i]) == StayOf(active[i]) && updated[i].admitted <= round
    ensures Said(seen + sights, StayOf(updated[i])) == updated[i].tokens
  {
    hide Said, SlotsOf;
    SaidRound(seen, active, sights, |active|, StayOf(active[i]), i);
    assert sights[..|active|] == sights;
  }

  lemma {:induction false} ToldStill(seen: seq<Sighting>, active: seq<Active>, updated: seq<Active>,
        finished: seq<Finished>, sights: seq<Sighting>, round: nat, spec: nat, f: Finished)
    requires Told(seen, active, finished, round, spec) && Stepped(active, updated, sights, spec)
    requires Distinct(SlotsOf(active))
    requires f in finished
    ensures Said(seen + sights, StayDone(f)) == f.tokens && f.admitted <= f.round < round
    ensures forall i | 0 <= i < |updated| :: StayOf(updated[i]) != StayDone(f)
  {
    hide Said, SlotsOf;
    var j :| 0 <= j < |finished| && finished[j] == f;
    SaidRound(seen, active, sights, |active|, StayDone(f), -1);
    assert sights[..|active|] == sights;
  }

  lemma {:induction false} ToldStep(seen: seq<Sighting>, active: seq<Active>, updated: seq<Active>,
        finished: seq<Finished>, sights: seq<Sighting>, round: nat, spec: nat)
    requires Told(seen, active, finished, round, spec) && Stepped(active, updated, sights, spec)
    requires Distinct(SlotsOf(active))
    ensures Told(seen + sights, Still(updated), finished + DoneAll(Ended(updated), round), round + 1, spec)
  {
    hide Said, SlotsOf, Still, Ended, DoneAll, Stepped, Told;
    var still, done := Still(updated), DoneAll(Ended(updated), round);
    var all, finished' := seen + sights, finished + done;
    var later := round + 1;
    SteppedShape(active, updated, sights, spec);
    forall k | 0 <= k < |all| ensures Follows(all, k, later, spec) {
      FollowsRound(seen, active, updated, finished, sights, round, spec, k);
    }
    forall i | 0 <= i < |still|
      ensures still[i].admitted <= later && Said(all, StayOf(still[i])) == still[i].tokens
    {
      assert still[i] in updated;
      var j :| 0 <= j < |updated| && updated[j] == still[i];
      ToldRound(seen, active, updated, finished, sights, round, spec, j);
    }
    forall i | 0 <= i < |finished'|
      ensures finished'[i].admitted <= finished'[i].round < later
      ensures Said(all, StayDone(finished'[i])) == finished'[i].tokens
      ensures forall j | 0 <= j < |still| :: StayOf(still[j]) != StayDone(finished'[i])
    {
      if i < |finished| {
        ToldStill(seen, active, updated, finished, sights, round, spec, finished[i]);
        forall j | 0 <= j < |still| ensures StayOf(still[j]) != StayDone(finished[i]) {
          assert still[j] in updated;
        }
      } else {
        var e := Ended(updated)[i - |finished|];
        assert e in Ended(updated) && e in updated;
        var k :| 0 <= k < |updated| && updated[k] == e;
        ToldRound(seen, active, updated, finished, sights, round, spec, k);
        EndedApart(active, updated, sights, spec, k);
      }
    }
    ToldFrom(all, still, finished', later, spec);
  }

  /** Nobody who goes on has the stay of somebody who ended. */
  lemma {:induction false} EndedApart(active: seq<Active>, updated: seq<Active>, sights: seq<Sighting>, spec: nat,
        k: nat)
    requires Stepped(active, updated, sights, spec) && Distinct(SlotsOf(active)) && k < |updated|
    requires |updated[k].tokens| >= updated[k].req.maxTokens
    ensures forall a | a in Still(updated) :: StayOf(a) != StayOf(updated[k])
  {
    hide SlotsOf, Still;
    forall a | a in Still(updated) ensures StayOf(a) != StayOf(updated[k]) {
      var j :| 0 <= j < |updated| && updated[j] == a;
      if j != k {
        assert SlotsOf(active)[j] != SlotsOf(active)[k];
      }
    }
  }

  lemma {:induction false} ToldFrom(seen: seq<Sighting>, active: seq<Active>, finished: seq<Finished>, round: nat,
        spec: nat)
    requires forall i | 0 <= i < |seen| :: Follows(seen, i, round, spec)
    requires forall i | 0 <= i < |active| ::
               active[i].admitted <= round && Said(seen, StayOf(active[i])) == active[i].tokens
    requires forall i | 0 <= i < |finished| ::
               && finished[i].admitted <= finished[i].round < round
               && Said(seen, StayDone(finished[i])) == finished[i].tokens
    requires forall i, j | 0 <= i < |finished| && 0 <= j < |active| :: StayOf(active[j]) != StayDone(finished[i])
    ensures Told(seen, active, finished, round, spec)
  {
  }
}
