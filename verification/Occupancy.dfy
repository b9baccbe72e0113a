/**
  Who is where in which round: how many requests a round found in the production slots, whether
  each of them was served in it, and in which order the slots were entered.
 */
module Occupancies {
  import opened Ledgers
  import opened Rosters

  // ---------------------------------------------------------------------------
  // How full a round was.
  // ---------------------------------------------------------------------------

  ghost function PresentActive(active: seq<Active>, r: nat): nat {
    if active == [] then 0
    else PresentActive(active[..|active| - 1], r) + if active[|active| - 1].admitted <= r then 1 else 0
  }

  ghost function PresentDone(finished: seq<Finished>, r: nat): nat {
    if finished == [] then 0
    else
      var f := finished[|finished| - 1];
      PresentDone(finished[..|finished| - 1], r) + if f.admitted <= r <= f.round then 1 else 0
  }

  /** The requests that were in a slot during round r: admitted by then, and still active or finished
      no earlier. */
  ghost function Present(active: seq<Active>, finished: seq<Finished>, r: nat): nat {
    PresentActive(active, r) + PresentDone(finished, r)
  }

  lemma ActiveSnoc(active: seq<Active>, a: Active, r: nat)
    ensures PresentActive(active + [a], r) == PresentActive(active, r) + if a.admitted <= r then 1 else 0
  {
    assert (active + [a])[..|active|] == active;
  }

  lemma DoneSnoc(finished: seq<Finished>, f: Finished, r: nat)
    ensures PresentDone(finished + [f], r) == PresentDone(finished, r) + if f.admitted <= r <= f.round then 1 else 0
  {
    assert (finished + [f])[..|finished|] == finished;
  }

  /** Newcomers were not there in any earlier round. */
  lemma {:induction false} NewcomersAbsent(active: seq<Active>, more: seq<Active>, r: nat)
    requires |active| <= |more| && more[..|active|] == active
    requires forall i | |active| <= i < |more| :: more[i].admitted > r
    ensures PresentActive(more, r) == PresentActive(active, r)
    decreases |more|
  {
    if |more| == |active| {
      assert more == active;
    } else {
      var front := more[..|more| - 1];
      assert front[..|active|] == active;
      NewcomersAbsent(active, front, r);
    }
  }

  /** In a round that everyone active entered by and nobody finished yet, those present are those
      active. */
  lemma {:induction false} AllPresent(active: seq<Active>, r: nat)
    requires forall i | 0 <= i < |active| :: active[i].admitted <= r
    ensures PresentActive(active, r) == |active|
  {
    if active != [] {
      AllPresent(active[..|active| - 1], r);
    }
  }

  lemma {:induction false} NoneDone(finished: seq<Finished>, r: nat)
    requires forall i | 0 <= i < |finished| :: finished[i].round < r
    ensures PresentDone(finished, r) == 0
  {
    if finished != [] {
      NoneDone(finished[..|finished| - 1], r);
    }
  }

  lemma {:induction false} DoneAppend(a: seq<Finished>, b: seq<Finished>, r: nat)
    ensures PresentDone(a + b, r) == PresentDone(a, r) + PresentDone(b, r)
  {
    if b == [] {
      assert a + b == a;
    } else {
      DoneAppend(a, b[..|b| - 1], r);
      assert (a + b)[..|a + b| - 1] == a + b[..|b| - 1];
    }
  }

  /** Splitting a round's requests into those that go on and those that finish with it loses nobody
      who was present in any round up to it. */
  lemma {:induction false} SplitPresent(us: seq<Active>, round: nat, r: nat)
    requires r <= round
    ensures PresentActive(Still(us), r) + PresentDone(DoneAll(Ended(us), round), r) == PresentActive(us, r)
  {
    hide PresentActive, PresentDone, Still, Ended, DoneAll;
    if us == [] {
      NobodyPresent(round, r);
    } else {
      var front, a := us[..|us| - 1], us[|us| - 1];
      assert us == front + [a];
      SplitPresent(front, round, r);
      SplitSnoc(front, a);
      ActiveSnoc(front, a, r);
      if |a.tokens| < a.req.maxTokens {
        ActiveSnoc(Still(front), a, r);
        assert Ended(us) == Ended(front);
      } else {
        DoneAllSnoc(Ended(front), a, round);
        DoneSnoc(DoneAll(Ended(front), round), Finished(a.req, a.slot, a.tokens, a.admitted, round), r);
        assert Still(us) == Still(front);
      }
    }
  }

  lemma NobodyPresent(round: nat, r: nat)
    ensures PresentActive(Still([]), r) == 0 && PresentDone(DoneAll(Ended([]), round), r) == 0
    ensures PresentActive([], r) == 0
  {
  }

  lemma {:induction false} SameActive(a: seq<Active>, b: seq<Active>, r: nat)
    requires |a| == |b| && forall i | 0 <= i < |a| :: a[i].admitted == b[i].admitted
    ensures PresentActive(a, r) == PresentActive(b, r)
  {
    if a != [] {
      SameActive(a[..|a| - 1], b[..|b| - 1], r);
    }
  }

  /** A round changes nothing about who was present in it or before it. */
  lemma {:induction false} RoundKeepsPresent(active: seq<Active>, updated: seq<Active>, finished: seq<Finished>,
        seen: seq<Sighting>, spec: nat, round: nat, r: nat)
    requires Stepped(active, updated, seen, spec) && r <= round
    ensures Present(Still(updated), finished + DoneAll(Ended(updated), round), r) == Present(active, finished, r)
  {
    hide PresentActive, PresentDone, Still, Ended, DoneAll, Stepped;
    SteppedShape(active, updated, seen, spec);
    forall i | 0 <= i < |active| ensures updated[i].admitted == active[i].admitted {
      SteppedAt(active, updated, seen, spec, i);
    }
    SameActive(active, updated, r);
    SplitPresent(updated, round, r);
    DoneAppend(finished, DoneAll(Ended(updated), round), r);
  }

  lemma {:induction false} NewcomersAdmitted(active: seq<Active>, more: seq<Active>, ids: seq<nat>, refs: seq<nat>,
        reqs: seq<Request>, round: nat)
    requires Joined(active, more, ids, refs, reqs, round)
    ensures |active| <= |more| && forall i | |active| <= i < |more| :: more[i].admitted == round
  {
    forall i | |active| <= i < |more| ensures more[i].admitted == round {
      assert News(more[|active| + (i - |active|)], ids[i - |active|], refs[i - |active|], reqs[i - |active|], round);
    }
  }

  lemma {:induction false} JoinedKeepsPresent(active: seq<Active>, more: seq<Active>, finished: seq<Finished>,
        ids: seq<nat>, refs: seq<nat>, reqs: seq<Request>, round: nat, r: nat)
    requires Joined(active, more, ids, refs, reqs, round) && r < round
    ensures Present(more, finished, r) == Present(active, finished, r)
  {
    hide PresentActive, PresentDone;
    NewcomersAdmitted(active, more, ids, refs, reqs, round);
    NewcomersAbsent(active, more, r);
  }

  // ---------------------------------------------------------------------------
  // Nobody present sits a round out.
  // ---------------------------------------------------------------------------

  ghost predicate SeenIn(log: seq<Row>, seen: seq<Sighting>, stay: Stay, r: nat) {
    exists i | 0 <= i < |log| && i < |seen| :: log[i].round == r && StayOf(seen[i].before) == stay
  }

  /** Every stay has a logged round for each round from its admission on, up to its last. */
  ghost predicate Attended(log: seq<Row>, seen: seq<Sighting>, active: seq<Active>, finished: seq<Finished>,
        round: nat)
  {
    && (forall i, r: nat | 0 <= i < |active| && active[i].admitted <= r < round ::
          SeenIn(log, seen, StayOf(active[i]), r))
    && (forall i, r: nat | 0 <= i < |finished| && finished[i].admitted <= r <= finished[i].round ::
          SeenIn(log, seen, StayDone(finished[i]), r))
  }

  lemma {:induction false} AttendedIdle(log: seq<Row>, seen: seq<Sighting>, finished: seq<Finished>, round: nat)
    requires Attended(log, seen, [], finished, round)
    ensures Attended(log, seen, [], finished, round + 1)
  {
    hide SeenIn;
  }

  lemma {:induction false} AttendedJoined(log: seq<Row>, seen: seq<Sighting>, active: seq<Active>, more: seq<Active>,
        finished: seq<Finished>, ids: seq<nat>, refs: seq<nat>, reqs: seq<Request>, round: nat)
    requires Attended(log, seen, active, finished, round) && Joined(active, more, ids, refs, reqs, round)
    ensures Attended(log, seen, more, finished, round)
  {
    hide SeenIn;
    NewcomersAdmitted(active, more, ids, refs, reqs, round);
    forall i, r: nat | 0 <= i < |more| && more[i].admitted <= r < round ensures SeenIn(log, seen, StayOf(more[i]), r) {
      assert i < |active| && more[i] == more[..|active|][i];
    }
  }

  lemma {:induction false} SeenLater(log: seq<Row>, seen: seq<Sighting>, rows: seq<Row>, sights: seq<Sighting>,
        stay: Stay, r: nat)
    requires SeenIn(log, seen, stay, r) && |log| == |seen|
    ensures SeenIn(log + rows, seen + sights, stay, r)
  {
    var i :| 0 <= i < |log| && log[i].round == r && StayOf(seen[i].before) == stay;
    assert (log + rows)[i] == log[i] && (seen + sights)[i] == seen[i];
  }

  lemma {:induction false} SeenNow(log: seq<Row>, seen: seq<Sighting>, rows: seq<Row>, sights: seq<Sighting>, i: nat)
    requires |log| == |seen| && i < |rows| && i < |sights|
    ensures SeenIn(log + rows, seen + sights, StayOf(sights[i].before), rows[i].round)
  {
    assert (log + rows)[|log| + i] == rows[i] && (seen + sights)[|seen| + i] == sights[i];
  }

  /** A round serves everyone active. */
  lemma {:induction false} AttendedStep(log: seq<Row>, seen: seq<Sighting>, active: seq<Active>, updated: seq<Active>,
        finished: seq<Finished>, rows: seq<Row>, sights: seq<Sighting>, round: nat, spec: nat)
    requires Attended(log, seen, active, finished, round) && |log| == |seen| && |rows| == |sights|
    requires Stepped(active, updated, sights, spec) && forall i | 0 <= i < |rows| :: rows[i].round == round
    ensures Attended(log + rows, seen + sights, Still(updated), finished + DoneAll(Ended(updated), round), round + 1)
  {
    hide SeenIn, Still, Ended, DoneAll, Stepped;
    SteppedShape(active, updated, sights, spec);
    var still, ended, all := Still(updated), Ended(updated), finished + DoneAll(Ended(updated), round);
    forall a, r: nat | a in updated && a.admitted <= r <= round
      ensures SeenIn(log + rows, seen + sights, StayOf(a), r)
    {
      var j :| 0 <= j < |updated| && updated[j] == a;
      SteppedAt(active, updated, sights, spec, j);
      if r < round {
        SeenLater(log, seen, rows, sights, StayOf(active[j]), r);
      } else {
        SeenNow(log, seen, rows, sights, j);
      }
    }
    forall i, r: nat | 0 <= i < |still| && still[i].admitted <= r < round + 1
      ensures SeenIn(log + rows, seen + sights, StayOf(still[i]), r)
    {
      assert still[i] in updated;
    }
    forall i, r: nat | 0 <= i < |all| && all[i].admitted <= r <= all[i].round
      ensures SeenIn(log + rows, seen + sights, StayDone(all[i]), r)
    {
      if i < |finished| {
        SeenLater(log, seen, rows, sights, StayDone(finished[i]), r);
      } else {
        var e := ended[i - |finished|];
        assert e in ended && e in updated;
        assert StayDone(all[i]) == StayOf(e);
      }
    }
  }

  // ---------------------------------------------------------------------------
  // The order of admission.
  // ---------------------------------------------------------------------------

  ghost function StaysOf(active: seq<Active>): (s: seq<Stay>)
    ensures |s| == |active| && forall i | 0 <= i < |active| :: s[i] == StayOf(active[i])
  {
    if active == [] then [] else StaysOf(active[..|active| - 1]) + [StayOf(active[|active| - 1])]
  }

  ghost function StaysDone(finished: seq<Finished>): (s: seq<Stay>)
    ensures |s| == |finished| && forall i | 0 <= i < |finished| :: s[i] == StayDone(finished[i])
  {
    if finished == [] then [] else StaysDone(finished[..|finished| - 1]) + [StayDone(finished[|finished| - 1])]
  }

  /** The stays opened so far, in order of admission, are those active or finished. */
  ghost predicate EntryBook(entered: seq<Stay>, active: seq<Active>, finished: seq<Finished>, round: nat) {
    && multiset(StaysOf(active)) + multiset(StaysDone(finished)) == multiset(entered)
    && (forall i | 0 <= i < |entered| :: entered[i].admitted <= round)
    && (forall i, j | 0 <= i < j < |entered| :: entered[i].admitted <= entered[j].admitted)
  }

  /** The stays a batch opens, in its own order. */
  ghost predicate Opens(stays: seq<Stay>, reqs: seq<Request>, round: nat) {
    |stays| == |reqs| && forall i | 0 <= i < |reqs| :: stays[i].req == reqs[i] && stays[i].admitted == round
  }

  lemma {:induction false} EntryBookLater(entered: seq<Stay>, active: seq<Active>, finished: seq<Finished>, round: nat)
    requires EntryBook(entered, active, finished, round)
    ensures EntryBook(entered, active, finished, round + 1)
  {
    hide StaysOf, StaysDone;
  }

  lemma {:induction false} EntryBookJoined(entered: seq<Stay>, active: seq<Active>, more: seq<Active>,
        finished: seq<Finished>, ids: seq<nat>, refs: seq<nat>, reqs: seq<Request>, round: nat)
    requires EntryBook(entered, active, finished, round) && Joined(active, more, ids, refs, reqs, round)
    ensures Opens(StaysOf(more)[|active|..], reqs, round)
    ensures EntryBook(entered + StaysOf(more)[|active|..], more, finished, round)
  {
    hide StaysOf, StaysDone;
    var news := StaysOf(more)[|active|..];
    forall i | 0 <= i < |reqs| ensures news[i].req == reqs[i] && news[i].admitted == round {
      assert News(more[|active| + i], ids[i], refs[i], reqs[i], round);
    }
    forall i | 0 <= i < |active| ensures StaysOf(more)[i] == StaysOf(active)[i] {
      assert more[i] == more[..|active|][i];
    }
    assert StaysOf(more) == StaysOf(active) + news;
  }

  lemma StaysSnoc(active: seq<Active>, a: Active)
    ensures StaysOf(active + [a]) == StaysOf(active) + [StayOf(a)]
  {
    assert (active + [a])[..|active|] == active;
  }

  lemma StaysDoneSnoc(finished: seq<Finished>, f: Finished)
    ensures StaysDone(finished + [f]) == StaysDone(finished) + [StayDone(f)]
  {
    assert (finished + [f])[..|finished|] == finished;
  }

  lemma {:induction false} StaysSplit(us: seq<Active>, round: nat)
    ensures multiset(StaysOf(Still(us))) + multiset(StaysDone(DoneAll(Ended(us), round))) == multiset(StaysOf(us))
  {
    hide StaysOf, StaysDone, Still, Ended, DoneAll;
    if us == [] {
      NoStays(round);
    } else {
      var front, a := us[..|us| - 1], us[|us| - 1];
      assert us == front + [a];
      StaysSplit(front, round);
      SplitSnoc(front, a);
      StaysSnoc(front, a);
      if |a.tokens| < a.req.maxTokens {
        StaysSnoc(Still(front), a);
        assert Ended(us) == Ended(front);
      } else {
        var f := Finished(a.req, a.slot, a.tokens, a.admitted, round);
        DoneAllSnoc(Ended(front), a, round);
        var done := DoneAll(Ended(front), round);
        StaysDoneSnoc(done, f);
        assert Still(us) == Still(front);
      }
    }
  }

  lemma NoStays(round: nat)
    ensures StaysOf(Still([])) == [] && StaysDone(DoneAll(Ended([]), round)) == [] && StaysOf([]) == []
  {
  }

  /** A round opens no stay and loses none. */
  lemma {:induction false} EntryBookStep(entered: seq<Stay>, active: seq<Active>, updated: seq<Active>,
        finished: seq<Finished>, seen: seq<Sighting>, spec: nat, round: nat)
    requires EntryBook(entered, active, finished, round) && Stepped(active, updated, seen, spec)
    ensures EntryBook(entered, Still(updated), finished + DoneAll(Ended(updated), round), round + 1)
  {
    hide StaysOf, StaysDone, Still, Ended, DoneAll, Stepped;
    SteppedShape(active, updated, seen, spec);
    forall i | 0 <= i < |active| ensures StaysOf(updated)[i] == StaysOf(active)[i] {
      SteppedAt(active, updated, seen, spec, i);
    }
    assert StaysOf(updated) == StaysOf(active);
    StaysSplit(updated, round);
    var done := DoneAll(Ended(updated), round);
    assert StaysDone(finished + done) == StaysDone(finished) + StaysDone(done);
  }
}
