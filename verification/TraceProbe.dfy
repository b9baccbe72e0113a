/**
  The trace-driven probe: rounds whose accept lengths are dictated by a trace instead of by
  the model, with the snapshot-and-recompute bookkeeping done slot by slot.
 */
module TraceProbes {
  import opened Drafting
  import opened Network
  import opened Runners
  import opened Slots

  const DUMMY: Token := 100

  function Dummies(n: nat): (d: seq<Token>)
    ensures |d| == n && forall i | 0 <= i < n :: d[i] == DUMMY
  {
    if n == 0 then [] else Dummies(n - 1) + [DUMMY]
  }

  /** Tokens a trace commits for its i-th slot: every round one more than it accepts. */
  function Committed(trace: seq<seq<nat>>, i: nat): nat
    requires forall t | 0 <= t < |trace| :: i < |trace[t]|
  {
    if trace == [] then 0 else Committed(trace[..|trace| - 1], i) + trace[|trace| - 1][i] + 1
  }

  lemma DummiesAppend(a: nat, b: nat)
    ensures Dummies(a) + Dummies(b) == Dummies(a + b)
  {
  }

  // ---------------------------------------------------------------------------
  // Contexts: the probe prefills with one model and verifies with the other, so a slot's
  // state need not be the fold of any history by either of them.
  // ---------------------------------------------------------------------------

  /** What the model remembers after reading more tokens on top of a context. */
  function From(net: Net, c: Context, toks: seq<Token>): (d: Context)
    ensures |d.kvs| == |c.kvs| + |toks|
  {
    if toks == [] then c
    else
      var d := From(net, c, toks[..|toks| - 1]);
      var out := net.cell(d.gdn, d.kvs, toks[|toks| - 1]);
      Context(out.gdn, d.kvs + [out.kv])
  }

  lemma {:induction false} FromAppend(net: Net, c: Context, a: seq<Token>, b: seq<Token>)
    ensures From(net, From(net, c, a), b) == From(net, c, a + b)
  {
    if b == [] {
      assert a + b == a;
    } else {
      var front := b[..|b| - 1];
      FromAppend(net, c, a, front);
      assert (a + b)[..|a + b| - 1] == a + front;
    }
  }

  lemma {:induction false} FromKeeps(net: Net, c: Context, toks: seq<Token>)
    ensures From(net, c, toks).kvs[..|c.kvs|] == c.kvs
  {
    if toks != [] {
      FromKeeps(net, c, toks[..|toks| - 1]);
    }
  }

  lemma {:induction false} FromFold(net: Net, h: seq<Token>, toks: seq<Token>)
    ensures From(net, Fold(net, h), toks) == Fold(net, h + toks)
  {
    if toks == [] {
      assert h + toks == h;
    } else {
      FromFold(net, h, toks[..|toks| - 1]);
      assert (h + toks)[..|h + toks| - 1] == h + toks[..|toks| - 1];
    }
  }

  lemma {:induction false} FeedFrom(net: Net, c: Context, toks: seq<Token>)
    ensures c.kvs + Feed(net, c.gdn, c.kvs, toks).kvs == From(net, c, toks).kvs
    ensures toks != [] ==> Feed(net, c.gdn, c.kvs, toks).rows[|toks| - 1] == From(net, c, toks).gdn
  {
    if toks != [] {
      FeedFrom(net, c, toks[..|toks| - 1]);
    }
  }

  /** The slot's live state is this context. */
  ghost predicate Stands(s: Slot, c: Context) {
    && s.kvLen == |c.kvs| <= |s.cache| && s.cache[..s.kvLen] == c.kvs
    && s.ready && s.rows != [] && s.rows[0] == c.gdn
  }

  /** The slot was written up to `d` but still counts as holding `c`. */
  ghost predicate Ahead(s: Slot, c: Context, d: Context) {
    && s.kvLen == |c.kvs| <= |d.kvs| <= |s.cache| && s.cache[..|d.kvs|] == d.kvs
    && s.ready && s.rows != [] && s.rows[0] == d.gdn
  }

  lemma ForwardStands(net: Net, s: Slot, c: Context, toks: seq<Token>, decode: bool)
    requires Stands(s, c) && toks != []
    ensures Stands(InPlaceForward(net, s, toks, decode, true), From(net, c, toks))
    ensures Ahead(InPlaceForward(net, s, toks, decode, false), c, From(net, c, toks))
  {
    hide Feed, Overlay, From;
    FeedFrom(net, c, toks);
    var f := FedInPlace(net, s, toks, decode);
    OverlayPrefix(s.cache, s.kvLen, f.kvs, s.kvLen);
  }

  // ---------------------------------------------------------------------------
  // One round.
  // ---------------------------------------------------------------------------

  /** Between rounds, with a fresh snapshot of the slot's own state. */
  ghost predicate Snapped(s: Slot, c: Context) {
    Stands(s, c) && s.saved == c.gdn && s.generation !in s.consumed
  }

  /** Verified but not settled. */
  ghost predicate Overrun(net: Net, s: Slot, c: Context, k: nat) {
    Ahead(s, c, From(net, c, Dummies(k + 1))) && s.saved == c.gdn && s.generation !in s.consumed
  }

  lemma SnapHolds(s: Slot, t: Slot, c: Context, spec: nat)
    requires Stands(s, c) && WellFormed(s, spec)
    requires t == s.(generation := s.generation + 1, saved := s.rows[0])
    ensures Snapped(t, c)
  {
  }

  lemma OverrunHolds(net: Net, s: Slot, t: Slot, c: Context, k: nat, decode: bool)
    requires Snapped(s, c) && t == InPlaceForward(net, s, Dummies(k + 1), decode, false)
    ensures Overrun(net, t, c, k)
  {
    hide Feed, From, Dummies;
    ForwardStands(net, s, c, Dummies(k + 1), decode);
  }

  /** No new snapshot, and nothing that was written is gone. */
  ghost predicate Kept(s: Slot, t: Slot) {
    t.generation == s.generation && |s.cache| <= |t.cache|
  }

  method SnapshotEach(r: Runner, ids: seq<nat>, ghost cs: seq<Context>) returns (snaps: seq<Snapshot>)
    requires r.Valid() && r.Known(ids) && |cs| == |ids|
    requires forall i | 0 <= i < |ids| :: Stands(r.slots[ids[i]], cs[i])
    modifies r
    ensures r.Valid() && Untouched(old(r.slots), r.slots, ids) && |snaps| == |ids|
    ensures forall i | 0 <= i < |ids| ::
              Snapped(r.slots[ids[i]], cs[i]) && snaps[i] == Snapshot(ids[i], r.slots[ids[i]].generation)
    ensures forall i | 0 <= i < |ids| ::
              && r.slots[ids[i]].generation == old(r.slots)[ids[i]].generation + 1
              && r.slots[ids[i]].cache == old(r.slots)[ids[i]].cache
  {
    hide WellFormed, Stands, Snapped;
    snaps := [];
    for i := 0 to |ids|
      invariant r.Valid() && Untouched(old(r.slots), r.slots, ids[..i]) && |snaps| == i
      invariant forall j | 0 <= j < i ::
                  Snapped(r.slots[ids[j]], cs[j]) && snaps[j] == Snapshot(ids[j], r.slots[ids[j]].generation)
      invariant forall j | i <= j < |ids| :: Stands(r.slots[ids[j]], cs[j])
      invariant forall j | 0 <= j < i ::
                  && r.slots[ids[j]].generation == old(r.slots)[ids[j]].generation + 1
                  && r.slots[ids[j]].cache == old(r.slots)[ids[j]].cache
    {
      assert ids[i] !in ids[..i];
      ghost var s := r.slots[ids[i]];
      var snap := r.SnapshotState(ids[i]);
      SnapHolds(s, r.slots[ids[i]], cs[i], r.spec);
      snaps := snaps + [snap];
    }
    assert ids[..|ids|] == ids;
  }

  /** Settle one slot as the trace says: keep everything, or restore, rewind and recompute. */
  method Settle(r: Runner, slot: nat, kv: nat, accept: nat, k: nat, snap: Snapshot, ghost c: Context)
    requires r.Valid() && slot < |r.slots| && accept <= k
    requires Overrun(r.batch, r.slots[slot], c, k) && kv == |c.kvs| && snap == Snapshot(slot, r.slots[slot].generation)
    modifies r
    ensures r.Valid() && Untouched(old(r.slots), r.slots, [slot])
    ensures Stands(r.slots[slot], From(r.batch, c, Dummies(accept + 1)))
    ensures Kept(old(r.slots)[slot], r.slots[slot])
  {
    hide Feed, From, InPlaceForward, FedInPlace, Dummies;
    if accept == k {
      r.slots := r.slots[slot := r.slots[slot].(kvLen := kv + k + 1)];
    } else {
      FromKeeps(r.batch, c, Dummies(k + 1));
      var outcome := r.RestoreState(slot, snap, false);
      r.slots := r.slots[slot := r.slots[slot].(kvLen := kv)];
      ghost var t := r.slots[slot];
      assert t.cache[..kv] == t.cache[..kv + k + 1][..kv];
      assert Stands(t, c);
      ForwardStands(r.batch, t, c, Dummies(accept + 1), true);
      KeptByForward(r.batch, t, Dummies(accept + 1), true, true);
      KeptByForward(r.batch, t, Dummies(accept + 1), false, true);
      ForwardStands(r.batch, t, c, Dummies(accept + 1), false);
      ghost var parts;
      var hids;
      hids, parts := r.ForwardBatch([slot], [Dummies(accept + 1)], [kv], true);
      assert [slot][0] == slot;
    }
  }

  /** Verify every slot over placeholder drafts. */
  method VerifyEach(r: Runner, ids: seq<nat>, kvs: seq<nat>, k: nat, ghost cs: seq<Context>)
    requires r.Valid() && r.Known(ids) && |cs| == |ids| == |kvs|
    requires forall i | 0 <= i < |ids| :: Snapped(r.slots[ids[i]], cs[i]) && kvs[i] == |cs[i].kvs|
    modifies r
    ensures r.Valid() && Untouched(old(r.slots), r.slots, ids)
    ensures forall i | 0 <= i < |ids| ::
              && Overrun(r.batch, r.slots[ids[i]], cs[i], k) && Kept(old(r.slots)[ids[i]], r.slots[ids[i]])
              && |cs[i].kvs| + k + 1 <= |r.slots[ids[i]].cache|
  {
    hide WellFormed, Snapped, Overrun, Dummies, InPlaceForward, FedInPlace, AllSingle;
    forall i | 0 <= i < |ids|
      ensures r.slots[ids[i]].kvLen == |cs[i].kvs| && r.slots[ids[i]].ready && r.slots[ids[i]].rows != []
      ensures r.slots[ids[i]].kvLen <= |r.slots[ids[i]].cache|
    {
      SnappedLength(r.slots[ids[i]], cs[i]);
    }
    var drafts := seq(|ids|, _ => Dummies(k + 1));
    ghost var parts;
    var hids;
    hids, parts := r.VerifyBatch(ids, drafts, kvs);
    forall i | 0 <= i < |ids|
      ensures Overrun(r.batch, r.slots[ids[i]], cs[i], k) && Kept(old(r.slots)[ids[i]], r.slots[ids[i]])
      ensures |cs[i].kvs| + k + 1 <= |r.slots[ids[i]].cache|
    {
      OverrunHolds(r.batch, old(r.slots)[ids[i]], r.slots[ids[i]], cs[i], k, AllSingle(drafts));
      OverrunReaches(r.batch, r.slots[ids[i]], cs[i], k);
      KeptByForward(r.batch, old(r.slots)[ids[i]], Dummies(k + 1), AllSingle(drafts), false);
    }
  }

  /** Settle every slot, one after the other. */
  method SettleEach(r: Runner, ids: seq<nat>, kvs: seq<nat>, accepts: seq<nat>, k: nat, snaps: seq<Snapshot>,
        ghost cs: seq<Context>)
    requires r.Valid() && r.Known(ids) && |cs| == |ids| == |accepts| == |kvs| == |snaps|
    requires forall i | 0 <= i < |ids| ::
               && accepts[i] <= k && kvs[i] == |cs[i].kvs| && Overrun(r.batch, r.slots[ids[i]], cs[i], k)
               && snaps[i] == Snapshot(ids[i], r.slots[ids[i]].generation)
    modifies r
    ensures r.Valid() && Untouched(old(r.slots), r.slots, ids)
    ensures forall i | 0 <= i < |ids| :: Stands(r.slots[ids[i]], From(r.batch, cs[i], Dummies(accepts[i] + 1)))
    ensures forall i | 0 <= i < |ids| :: Kept(old(r.slots)[ids[i]], r.slots[ids[i]])
  {
    hide Runner.Valid, Stands, Overrun, Dummies, From, Kept;
    for i := 0 to |ids|
      invariant r.Valid() && Untouched(old(r.slots), r.slots, ids)
      invariant forall j | 0 <= j < i :: Stands(r.slots[ids[j]], From(r.batch, cs[j], Dummies(accepts[j] + 1)))
      invariant forall j | 0 <= j < i :: Kept(old(r.slots)[ids[j]], r.slots[ids[j]])
      invariant forall j | i <= j < |ids| :: r.slots[ids[j]] == old(r.slots)[ids[j]]
    {
      Settle(r, ids[i], kvs[i], accepts[i], k, snaps[i], cs[i]);
    }
  }

  /** One round over every slot. */
  method ProbeRound(r: Runner, ids: seq<nat>, accepts: seq<nat>, k: nat, ghost cs: seq<Context>)
    requires r.Valid() && r.Known(ids) && |cs| == |ids| == |accepts|
    requires forall i | 0 <= i < |ids| :: accepts[i] <= k && Stands(r.slots[ids[i]], cs[i])
    modifies r
    ensures r.Valid() && Untouched(old(r.slots), r.slots, ids)
    ensures forall i | 0 <= i < |ids| :: Stands(r.slots[ids[i]], From(r.batch, cs[i], Dummies(accepts[i] + 1)))
    ensures forall i | 0 <= i < |ids| ::
              && r.slots[ids[i]].generation == old(r.slots)[ids[i]].generation + 1
              && |old(r.slots)[ids[i]].cache| <= |r.slots[ids[i]].cache|
              && |cs[i].kvs| + k + 1 <= |r.slots[ids[i]].cache|
  {
    hide Runner.Valid, Stands, Snapped, Overrun, Dummies, From;
    var kvs := r.KvLengths(ids);
    forall i | 0 <= i < |ids| ensures kvs[i] == |cs[i].kvs| {
      HoldsLength(r.slots[ids[i]], cs[i]);
    }
    var snaps := SnapshotEach(r, ids, cs);
    VerifyEach(r, ids, kvs, k, cs);
    SettleEach(r, ids, kvs, accepts, k, snaps, cs);
  }

  lemma HoldsLength(s: Slot, c: Context)
    requires Stands(s, c)
    ensures s.kvLen == |c.kvs| && s.ready
  {
  }

  lemma SnappedLength(s: Slot, c: Context)
    requires Snapped(s, c)
    ensures s.kvLen == |c.kvs| && s.ready && s.rows != [] && s.kvLen <= |s.cache|
  {
  }

  lemma KeptByForward(net: Net, s: Slot, toks: seq<Token>, decode: bool, commit: bool)
    requires s.rows != [] && s.kvLen <= |s.cache| && toks != []
    ensures Kept(s, InPlaceForward(net, s, toks, decode, commit))
  {
  }

  lemma OverrunReaches(net: Net, s: Slot, c: Context, k: nat)
    requires Overrun(net, s, c, k)
    ensures |c.kvs| + k + 1 <= |s.cache|
  {
    hide Dummies, From;
  }

  // ---------------------------------------------------------------------------
  // The run.
  // ---------------------------------------------------------------------------

  /** Where plainly feeding what a trace commits would leave the i-th slot. */
  function Reached(single: Net, batch: Net, prompt: seq<Token>, trace: seq<seq<nat>>, i: nat): Context
    requires forall t | 0 <= t < |trace| :: i < |trace[t]|
  {
    From(batch, Fold(single, prompt), Dummies(Committed(trace, i)))
  }

  lemma ReachedStep(single: Net, batch: Net, prompt: seq<Token>, trace: seq<seq<nat>>, t: nat, i: nat)
    requires t < |trace| && forall u | 0 <= u < |trace| :: i < |trace[u]|
    ensures From(batch, Reached(single, batch, prompt, trace[..t], i), Dummies(trace[t][i] + 1))
         == Reached(single, batch, prompt, trace[..t + 1], i)
  {
    hide Dummies, Fold, From;
    assert trace[..t + 1][..t] == trace[..t];
    DummiesAppend(Committed(trace[..t], i), trace[t][i] + 1);
    FromAppend(batch, Fold(single, prompt), Dummies(Committed(trace[..t], i)), Dummies(trace[t][i] + 1));
  }

  /** With one model on both paths that is the fold of prompt and committed tokens. */
  lemma ReachedByOneModel(net: Net, s: Slot, prompt: seq<Token>, trace: seq<seq<nat>>, i: nat)
    requires forall t | 0 <= t < |trace| :: i < |trace[t]|
    ensures Stands(s, Reached(net, net, prompt, trace, i)) <==> InPlace(net, s, prompt + Dummies(Committed(trace, i)))
  {
    hide Dummies, Fold, From;
    FromFold(net, prompt, Dummies(Committed(trace, i)));
  }

  /** Whatever the trace dictates and whichever model each path runs, every slot ends in exactly
      the state and at exactly the length that plainly feeding the committed tokens on top of
      the prefilled prompt would have left, although every verify overran by up to k tokens: each
      round took its snapshot and wrote k + 1 entries past the length it started from. */
  method RunConfig(r: Runner, ids: seq<nat>, prompt: seq<Token>, trace: seq<seq<nat>>, k: nat)
    requires r.Valid() && r.Known(ids) && prompt != []
    requires forall s | 0 <= s < |r.slots| && r.slots[s].kvLen == 0 :: Fresh(r.slots[s])
    requires forall t | 0 <= t < |trace| :: |trace[t]| == |ids| && forall i | 0 <= i < |ids| :: trace[t][i] <= k
    modifies r
    ensures r.Valid() && Untouched(old(r.slots), r.slots, ids)
    ensures forall i | 0 <= i < |ids| ::
              && Stands(r.slots[ids[i]], Reached(r.single, r.batch, prompt, trace, i))
              && r.slots[ids[i]].kvLen == |prompt| + Committed(trace, i)
              && r.slots[ids[i]].generation == old(r.slots)[ids[i]].generation + |trace|
    ensures forall i, t | 0 <= i < |ids| && 0 <= t < |trace| ::
              |prompt| + Committed(trace[..t], i) + k + 1 <= |r.slots[ids[i]].cache|
  {
    hide WellFormed, Stands, Dummies, Committed, Fresh, Reached, From, Distinct;
    PrefillEach(r, ids, prompt);
    for t := 0 to |trace|
      invariant r.Valid() && Untouched(old(r.slots), r.slots, ids)
      invariant forall i | 0 <= i < |ids| ::
                  && Stands(r.slots[ids[i]], Reached(r.single, r.batch, prompt, trace[..t], i))
                  && r.slots[ids[i]].generation == old(r.slots)[ids[i]].generation + t
      invariant forall i, u | 0 <= i < |ids| && 0 <= u < t ::
                  |prompt| + Committed(trace[..u], i) + k + 1 <= |r.slots[ids[i]].cache|
    {
      ghost var cs := seq(|ids|, i requires 0 <= i < |ids| => Reached(r.single, r.batch, prompt, trace[..t], i));
      ProbeRound(r, ids, trace[t], k, cs);
      forall i | 0 <= i < |ids|
        ensures From(r.batch, cs[i], Dummies(trace[t][i] + 1)) == Reached(r.single, r.batch, prompt, trace[..t + 1], i)
        ensures |cs[i].kvs| == |prompt| + Committed(trace[..t], i)
      {
        ReachedLength(r.single, r.batch, prompt, trace[..t], i);
        ReachedStep(r.single, r.batch, prompt, trace, t, i);
      }
    }
    assert trace[..|trace|] == trace;
    forall i | 0 <= i < |ids| ensures r.slots[ids[i]].kvLen == |prompt| + Committed(trace, i) {
      HoldsLength(r.slots[ids[i]], Reached(r.single, r.batch, prompt, trace, i));
      ReachedLength(r.single, r.batch, prompt, trace, i);
    }
  }

  lemma ReachedLength(single: Net, batch: Net, prompt: seq<Token>, trace: seq<seq<nat>>, i: nat)
    requires forall t | 0 <= t < |trace| :: i < |trace[t]|
    ensures |Reached(single, batch, prompt, trace, i).kvs| == |prompt| + Committed(trace, i)
  {
  }

  method PrefillEach(r: Runner, ids: seq<nat>, prompt: seq<Token>)
    requires r.Valid() && r.Known(ids) && prompt != []
    requires forall s | 0 <= s < |r.slots| && r.slots[s].kvLen == 0 :: Fresh(r.slots[s])
    modifies r
    ensures r.Valid() && Untouched(old(r.slots), r.slots, ids)
    ensures forall i | 0 <= i < |ids| ::
              && Stands(r.slots[ids[i]], Reached(r.single, r.batch, prompt, [], i))
              && r.slots[ids[i]].generation == old(r.slots)[ids[i]].generation
  {
    hide WellFormed, InPlace, Fold, Stands, Reached;
    for i := 0 to |ids|
      invariant r.Valid() && Untouched(old(r.slots), r.slots, ids[..i])
      invariant forall j | 0 <= j < i ::
                  && InPlace(r.single, r.slots[ids[j]], prompt)
                  && r.slots[ids[j]].generation == old(r.slots)[ids[j]].generation
    {
      assert ids[i] !in ids[..i];
      if r.slots[ids[i]].kvLen != 0 {
        r.ResetSlot(ids[i]);
      }
      var next := r.Prefill(ids[i], prompt);
    }
    assert ids[..|ids|] == ids;
    forall i | 0 <= i < |ids| ensures Stands(r.slots[ids[i]], Reached(r.single, r.batch, prompt, [], i)) {
      PrefilledStands(r.single, r.batch, r.slots[ids[i]], prompt, i);
    }
  }

  lemma PrefilledStands(single: Net, batch: Net, s: Slot, prompt: seq<Token>, i: nat)
    requires InPlace(single, s, prompt)
    ensures Stands(s, Reached(single, batch, prompt, [], i))
  {
    hide Fold;
  }
}
