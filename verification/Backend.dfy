/**
  The draft side of the runner and the verify rounds built on it.
 */
module Backends {
  import opened AcceptReject
  import opened Batches
  import opened Drafting
  import opened Network
  import opened Runners
  import opened Slots
  import opened Speculation

  class Backend {
    const r: Runner

    constructor (r: Runner)
      ensures this.r == r
    {
      this.r := r;
    }

    // -------------------------------------------------------------------------
    // Draft forwards and the propose funnel.
    // -------------------------------------------------------------------------

    /** One draft forward for one slot; the caller says how much history attention may read. */
    method DraftForward(slot: nat, toks: seq<Token>, hidden: seq<Hidden>, start: nat, prior: nat)
      returns (outs: seq<Hidden>)
      requires r.Valid() && slot < |r.slots| && |toks| == |hidden| && start <= |r.slots[slot].draft|
      modifies r
      ensures r.Valid()
      ensures var s := old(r.slots)[slot];
              var cache := Overlay(s.draft, start, DraftRows(r.single, toks, hidden, start));
              && r.slots == old(r.slots)[slot := s.(draft := cache)]
              && outs == DraftOuts(r.single, cache, toks, hidden, start, prior)
    {
      hide DraftRows, DraftOuts;
      var cache := Overlay(r.slots[slot].draft, start, DraftRows(r.single, toks, hidden, start));
      r.slots := r.slots[slot := r.slots[slot].(draft := cache)];
      outs := DraftOuts(r.single, cache, toks, hidden, start, prior);
    }

    /** The single-slot propose funnel, instrumented: it also reports every draft forward. */
    method SyncAndPropose(slot: nat, shifted: seq<Token>, hidden: seq<Hidden>, start: nat, k: nat)
      returns (drafts: seq<Token>, calls: seq<Call>)
      requires r.Valid() && slot < |r.slots| && 0 < |shifted| == |hidden| && 1 <= k
      requires r.slots[slot].syncLen <= start <= |r.slots[slot].draft|
      modifies r
      ensures r.Valid()
      ensures var s := old(r.slots)[slot];
              var p := Propose(r.single, s.draft, shifted, hidden, start, s.syncLen, false, k);
              && r.slots == old(r.slots)[slot := s.(draft := p.cache, syncLen := s.syncLen + |shifted|)]
              && drafts == p.tokens && calls == p.calls
    {
      hide Sync, DraftRows, DraftOuts, Overlay, Explore, Continue;
      ghost var s := r.slots[slot];
      ghost var t := Sync(r.single, s.draft, shifted, hidden, start, s.syncLen);
      SyncParts(r.single, s.draft, shifted, hidden, start, s.syncLen);
      ContinueZero(r.single, t, start + |shifted|, s.syncLen + |shifted|, false);
      var prior := r.slots[slot].syncLen;
      calls := [Call(start, prior, |shifted|)];
      var outs := DraftForward(slot, shifted, hidden, start, prior);
      r.slots := r.slots[slot := r.slots[slot].(syncLen := prior + |shifted|)];
      var prevHidden := outs[|outs| - 1];
      drafts := [Argmax(r.single.draftHead(prevHidden))];
      var nextPos, running := start + |shifted|, r.slots[slot].syncLen;
      for i := 1 to k
        invariant r.Valid() && nextPos == start + |shifted| + i - 1 && running == s.syncLen + |shifted| + i - 1
        invariant |r.slots| == |old(r.slots)|
        invariant r.slots == old(r.slots)[slot := s.(draft := r.slots[slot].draft, syncLen := s.syncLen + |shifted|)]
        invariant At(r.slots[slot], drafts, prevHidden,
                     Continue(r.single, t, start + |shifted|, s.syncLen + |shifted|, false, i - 1))
        invariant calls == Continue(r.single, t, start + |shifted|, s.syncLen + |shifted|, false, i - 1).calls
      {
        ghost var u := Continue(r.single, t, start + |shifted|, s.syncLen + |shifted|, false, i - 1);
        ContinueStep(r.single, t, start + |shifted|, s.syncLen + |shifted|, false, i - 1);
        drafts, prevHidden, calls := ExploreOnce(slot, drafts, prevHidden, calls, nextPos, running, u);
        nextPos, running := nextPos + 1, running + 1;
      }
    }

    /** The draft model reads its own last token once more. */
    method ExploreOnce(slot: nat, drafts: seq<Token>, hidden: Hidden, calls: seq<Call>, at: nat, seen: nat,
          ghost u: Trail)
      returns (drafts': seq<Token>, hidden': Hidden, calls': seq<Call>)
      requires r.Valid() && slot < |r.slots| && At(r.slots[slot], drafts, hidden, u) && calls == u.calls
      requires at <= |u.cache|
      modifies r
      ensures r.Valid() && |r.slots| == |old(r.slots)|
      ensures r.slots == old(r.slots)[slot := old(r.slots)[slot].(draft := r.slots[slot].draft)]
      ensures At(r.slots[slot], drafts', hidden', Explore(r.single, u, at, seen))
      ensures calls' == Explore(r.single, u, at, seen).calls
    {
      hide DraftRows, DraftOuts, Overlay, Explore;
      SingleRow(r.single, u, at, seen);
      calls' := calls + [Call(at, seen, 1)];
      var outs := DraftForward(slot, [drafts[|drafts| - 1]], [hidden], at, seen);
      hidden' := outs[0];
      drafts' := drafts + [Argmax(r.single.draftHead(hidden'))];
    }

    /** Batched draft forward; `priors` and `starts` are separate because they mean different
        things even where they coincide. */
    method DraftForwardBatch(ids: seq<nat>, toks: seq<seq<Token>>, hidden: seq<Hidden>, ghost hparts: seq<seq<Hidden>>,
          priors: seq<nat>, starts: seq<nat>)
      returns (outs: seq<Hidden>, ghost oparts: seq<seq<Hidden>>)
      requires r.Valid() && r.Known(ids) && |ids| == |toks| == |hparts| == |priors| == |starts|
      requires hidden == Flat(hparts)
      requires forall i | 0 <= i < |ids| :: |toks[i]| == |hparts[i]| && starts[i] <= |r.slots[ids[i]].draft|
      modifies r
      ensures r.Valid() && Untouched(old(r.slots), r.slots, ids)
      ensures |oparts| == |ids| && outs == Flat(oparts)
      ensures forall i | 0 <= i < |ids| ::
                && r.slots[ids[i]] == old(r.slots)[ids[i]].(draft := Overlay(old(r.slots)[ids[i]].draft, starts[i],
                                                                          DraftRows(r.batch, toks[i], hparts[i],
                                                                                    starts[i])))
                && oparts[i] == DraftOuts(r.batch, r.slots[ids[i]].draft, toks[i], hparts[i], starts[i], priors[i])
    {
      hide DraftRows, DraftOuts, Overlay, Flat;
      outs, oparts := [], [];
      FlatNil<Hidden>();
      var from := 0;
      assert hparts[..0] == [];
      for i := 0 to |ids|
        invariant |oparts| == i && outs == Flat(oparts) && from == Offset(hparts, i)
        invariant r.Valid() && |r.slots| == |old(r.slots)|
        invariant forall s | 0 <= s < |r.slots| && s !in ids[..i] :: r.slots[s] == old(r.slots)[s]
        invariant forall j | 0 <= j < i ::
                    && r.slots[ids[j]] == old(r.slots)[ids[j]].(draft := Overlay(old(r.slots)[ids[j]].draft, starts[j],
                                                                              DraftRows(r.batch, toks[j], hparts[j],
                                                                                        starts[j])))
                    && oparts[j] == DraftOuts(r.batch, r.slots[ids[j]].draft, toks[j], hparts[j], starts[j], priors[j])
      {
        var s := ids[i];
        assert s !in ids[..i];
        RaggedSlice(hparts, i);
        var rows := hidden[from..from + |toks[i]|];
        assert rows == hparts[i];
        var cache := Overlay(r.slots[s].draft, starts[i], DraftRows(r.batch, toks[i], rows, starts[i]));
        var got := DraftOuts(r.batch, cache, toks[i], rows, starts[i], priors[i]);
        r.slots := r.slots[s := r.slots[s].(draft := cache)];
        FlatSnoc(oparts, got);
        outs, oparts := outs + got, oparts + [got];
        from := from + |toks[i]|;
      }
      assert ids[..|ids|] == ids;
    }

    /** One exploratory step of a batch: one row per slot. */
    method ContinuationStep(ids: seq<nat>, tokens: seq<seq<Token>>, hidden: seq<Hidden>, starts: seq<nat>,
          priors: seq<nat>, ghost trails: seq<Trail>)
      returns (tokens': seq<seq<Token>>, hidden': seq<Hidden>)
      requires r.Valid() && r.Known(ids) && |ids| == |tokens| == |hidden| == |starts| == |priors| == |trails|
      requires forall i | 0 <= i < |ids| :: At(r.slots[ids[i]], tokens[i], hidden[i], trails[i])
      requires forall i | 0 <= i < |ids| :: starts[i] <= |trails[i].cache| && trails[i].tokens != []
      modifies r
      ensures r.Valid() && Untouched(old(r.slots), r.slots, ids) && |tokens'| == |hidden'| == |ids|
      ensures forall i | 0 <= i < |ids| :: r.slots[ids[i]] == old(r.slots)[ids[i]].(draft := r.slots[ids[i]].draft)
      ensures forall i | 0 <= i < |ids| ::
                At(r.slots[ids[i]], tokens'[i], hidden'[i], Explore(r.batch, trails[i], starts[i], priors[i]))
    {
      hide Explore, Overlay, DraftRows, DraftOuts, Flat, Singles;
      var n := |ids|;
      var last := seq(n, i requires 0 <= i < n => tokens[i][|tokens[i]| - 1]);
      SinglesFlat(hidden);
      ghost var oparts;
      hidden', oparts := DraftForwardBatch(ids, Singles(last), hidden, Singles(hidden), priors, starts);
      forall i | 0 <= i < n
        ensures oparts[i] == [Explore(r.batch, trails[i], starts[i], priors[i]).hidden]
        ensures r.slots[ids[i]].draft == Explore(r.batch, trails[i], starts[i], priors[i]).cache
      {
        SingleRow(r.batch, trails[i], starts[i], priors[i]);
      }
      FlatOfSingles(oparts);
      tokens' := seq(n, i requires 0 <= i < n => tokens[i] + [Argmax(r.batch.draftHead(hidden'[i]))]);
      forall i | 0 <= i < n
        ensures At(r.slots[ids[i]], tokens'[i], hidden'[i], Explore(r.batch, trails[i], starts[i], priors[i]))
      {
        SingleRow(r.batch, trails[i], starts[i], priors[i]);
      }
    }

    /** The exploratory steps of a batch, in lockstep: every slot keeps its own write
        position and its own running history length. */
    method ContinuationSteps(ids: seq<nat>, first: seq<seq<Token>>, hidden: seq<Hidden>, nextPos: seq<nat>,
          prior: seq<nat>, k: nat, ghost trails: seq<Trail>)
      returns (tokens: seq<seq<Token>>)
      requires r.Valid() && r.Known(ids) && 1 <= k
      requires |ids| == |first| == |hidden| == |nextPos| == |prior| == |trails|
      requires forall i | 0 <= i < |ids| :: At(r.slots[ids[i]], first[i], hidden[i], trails[i])
      requires forall i | 0 <= i < |ids| :: nextPos[i] <= |trails[i].cache| && trails[i].tokens != []
      modifies r
      ensures r.Valid() && Untouched(old(r.slots), r.slots, ids) && |tokens| == |ids|
      ensures forall i | 0 <= i < |ids| ::
                Continued(r.batch, old(r.slots)[ids[i]], r.slots[ids[i]], trails[i], nextPos[i], prior[i], k, tokens[i])
    {
      hide Explore, Continue, At, WellFormed;
      tokens := first;
      var prev, n := hidden, |ids|;
      forall i | 0 <= i < n ensures Continue(r.batch, trails[i], nextPos[i], prior[i], false, 0) == trails[i] {
        ContinueZero(r.batch, trails[i], nextPos[i], prior[i], false);
      }
      for m := 0 to k - 1
        invariant r.Valid() && Untouched(old(r.slots), r.slots, ids) && |tokens| == |prev| == n
        invariant forall i | 0 <= i < n :: r.slots[ids[i]] == old(r.slots)[ids[i]].(draft := r.slots[ids[i]].draft)
        invariant forall i | 0 <= i < n ::
                    At(r.slots[ids[i]], tokens[i], prev[i],
                       Continue(r.batch, trails[i], nextPos[i], prior[i], false, m))
      {
        ghost var us := seq(n, i requires 0 <= i < n => Continue(r.batch, trails[i], nextPos[i], prior[i], false, m));
        var starts := seq(n, i requires 0 <= i < n => nextPos[i] + m);
        var priors := seq(n, i requires 0 <= i < n => prior[i] + m);
        tokens, prev := ContinuationStep(ids, tokens, prev, starts, priors, us);
        forall i | 0 <= i < n
          ensures Continue(r.batch, trails[i], nextPos[i], prior[i], false, m + 1)
               == Explore(r.batch, us[i], starts[i], priors[i])
        {
          ContinueStep(r.batch, trails[i], nextPos[i], prior[i], false, m);
        }
      }
      forall i | 0 <= i < n
        ensures At(r.slots[ids[i]], tokens[i], prev[i],
                   Continue(r.batch, trails[i], nextPos[i], prior[i], false, k - 1))
        ensures Continued(r.batch, old(r.slots)[ids[i]], r.slots[ids[i]], trails[i], nextPos[i], prior[i], k, tokens[i])
      {
        AtMeans(r.slots[ids[i]], tokens[i], prev[i], Continue(r.batch, trails[i], nextPos[i], prior[i], false, k - 1));
      }
    }

    /** Where step 0 takes each slot's draft. */
    ghost method SyncTrails(ids: seq<nat>, shifted: seq<seq<Token>>, hparts: seq<seq<Hidden>>, starts: seq<nat>)
      returns (trails: seq<Trail>)
      requires r.Valid() && r.Known(ids) && |ids| == |shifted| == |hparts| == |starts|
      requires forall i | 0 <= i < |ids| :: 0 < |shifted[i]| == |hparts[i]| && r.slots[ids[i]].syncLen == starts[i]
      ensures |trails| == |ids|
      ensures forall i | 0 <= i < |ids| ::
                && r.slots[ids[i]].syncLen <= |r.slots[ids[i]].draft|
                && trails[i] == Sync(r.batch, r.slots[ids[i]].draft, shifted[i], hparts[i], starts[i], starts[i])
    {
      hide DraftRows, DraftOuts, Overlay, Sync;
      trails := [];
      for i := 0 to |ids|
        invariant |trails| == i
        invariant forall j | 0 <= j < i ::
                    && r.slots[ids[j]].syncLen <= |r.slots[ids[j]].draft|
                    && trails[j] == Sync(r.batch, r.slots[ids[j]].draft, shifted[j], hparts[j], starts[j], starts[j])
      {
        trails := trails + [Sync(r.batch, r.slots[ids[i]].draft, shifted[i], hparts[i], starts[i], starts[i])];
      }
    }

    /** Step 0 of a batch: every slot's newly committed tokens in one forward. */
    method SyncBatch(ids: seq<nat>, shifted: seq<seq<Token>>, hidden: seq<Hidden>, ghost hparts: seq<seq<Hidden>>,
          starts: seq<nat>)
      returns (first: seq<seq<Token>>, last: seq<Hidden>, ghost trails: seq<Trail>)
      requires r.Valid() && r.Known(ids) && |ids| == |shifted| == |hparts| == |starts|
      requires hidden == Flat(hparts)
      requires forall i | 0 <= i < |ids| :: 0 < |shifted[i]| == |hparts[i]|
      requires forall i | 0 <= i < |ids| :: r.slots[ids[i]].syncLen == starts[i]
      modifies r
      ensures r.Valid() && Untouched(old(r.slots), r.slots, ids)
      ensures |first| == |last| == |trails| == |ids|
      ensures forall i | 0 <= i < |ids| :: At(r.slots[ids[i]], first[i], last[i], trails[i])
      ensures forall i | 0 <= i < |ids| ::
                Synced(r.batch, old(r.slots)[ids[i]], r.slots[ids[i]], shifted[i], hparts[i], trails[i])
    {
      hide Continue, Flat, DraftRows, DraftOuts, Overlay, Sync;
      var n := |ids|;
      trails := SyncTrails(ids, shifted, hparts, starts);
      var outs, oparts := DraftForwardBatch(ids, shifted, hidden, hparts, starts, starts);
      forall i | 0 <= i < n
        ensures r.slots[ids[i]].draft == trails[i].cache && |oparts[i]| == |shifted[i]|
        ensures trails[i].hidden == oparts[i][|oparts[i]| - 1]
        ensures trails[i].tokens == [Argmax(r.batch.draftHead(trails[i].hidden))]
      {
        SyncParts(r.batch, old(r.slots)[ids[i]].draft, shifted[i], hparts[i], starts[i], starts[i]);
      }
      AdvanceSync(ids, shifted);
      var lens := seq(n, i requires 0 <= i < n => |shifted[i]|);
      last := LastRows(outs, oparts, lens);
      first := seq(n, i requires 0 <= i < n => [Argmax(r.batch.draftHead(last[i]))]);
    }

    /** The batched propose funnel.  Every slot brings its own number of newly committed
        tokens; step 0 covers them all, then the exploratory steps run in lockstep. */
    method SyncAndProposeBatch(ids: seq<nat>, shifted: seq<seq<Token>>, hidden: seq<Hidden>,
          ghost hparts: seq<seq<Hidden>>, starts: seq<nat>, k: nat)
      returns (drafts: map<nat, seq<Token>>)
      requires r.Valid() && r.Known(ids) && |ids| == |shifted| == |hparts| == |starts| && 1 <= k
      requires hidden == Flat(hparts)
      requires forall i | 0 <= i < |ids| :: 0 < |shifted[i]| == |hparts[i]|
      requires forall i | 0 <= i < |ids| :: r.slots[ids[i]].syncLen == starts[i]
      modifies r
      ensures r.Valid() && Untouched(old(r.slots), r.slots, ids) && drafts.Keys == set s | s in ids
      ensures forall i | 0 <= i < |ids| ::
                Proposed(r.batch, old(r.slots)[ids[i]], r.slots[ids[i]], shifted[i], hparts[i], k, drafts[ids[i]])
    {
      hide Flat, WellFormed, Synced, Continued, Proposed;
      var n := |ids|;
      var first, last, trails := SyncBatch(ids, shifted, hidden, hparts, starts);
      var next := seq(n, i requires 0 <= i < n => starts[i] + |shifted[i]|);
      label synced:
      forall i | 0 <= i < n ensures next[i] <= |trails[i].cache| && trails[i].tokens != [] {
        SyncedLength(r.batch, old(r.slots)[ids[i]], r.slots[ids[i]], shifted[i], hparts[i], trails[i]);
      }
      var tokens := ContinuationSteps(ids, first, last, next, next, k, trails);
      forall i | 0 <= i < n
        ensures Proposed(r.batch, old(r.slots)[ids[i]], r.slots[ids[i]], shifted[i], hparts[i], k, tokens[i])
      {
        SyncThenContinue(r.batch, old(r.slots)[ids[i]], old@synced(r.slots)[ids[i]], r.slots[ids[i]], shifted[i],
                         hparts[i], trails[i], k, tokens[i]);
      }
      drafts := ByKey(ids, tokens);
    }

    /** Step 0 is real history: it alone advances the synced length. */
    method AdvanceSync(ids: seq<nat>, shifted: seq<seq<Token>>)
      requires r.Valid() && r.Known(ids) && |ids| == |shifted|
      requires forall i | 0 <= i < |ids| :: r.slots[ids[i]].syncLen + |shifted[i]| <= |r.slots[ids[i]].draft|
      modifies r
      ensures r.Valid() && Untouched(old(r.slots), r.slots, ids)
      ensures forall i | 0 <= i < |ids| ::
                r.slots[ids[i]] == old(r.slots)[ids[i]].(syncLen := old(r.slots)[ids[i]].syncLen + |shifted[i]|)
    {
      for i := 0 to |ids|
        invariant r.Valid() && |r.slots| == |old(r.slots)|
        invariant forall s | 0 <= s < |r.slots| && s !in ids[..i] :: r.slots[s] == old(r.slots)[s]
        invariant forall j | 0 <= j < i ::
                    r.slots[ids[j]] == old(r.slots)[ids[j]].(syncLen := old(r.slots)[ids[j]].syncLen + |shifted[j]|)
      {
        var s := ids[i];
        assert s !in ids[..i];
        r.slots := r.slots[s := r.slots[s].(syncLen := r.slots[s].syncLen + |shifted[i]|)];
      }
      assert ids[..|ids|] == ids;
    }

    // -------------------------------------------------------------------------
    // Prefill and the production verify round.
    // -------------------------------------------------------------------------

    /** Batched prefill of fresh slots, with prompts of any lengths. */
    method PrefillBatch(ids: seq<nat>, prompts: seq<seq<Token>>) returns (starts: map<nat, Start>)
      requires r.Valid() && r.Known(ids) && |ids| == |prompts|
      requires forall i | 0 <= i < |ids| :: prompts[i] != [] && Fresh(r.slots[ids[i]])
      modifies r
      ensures r.Valid() && Untouched(old(r.slots), r.slots, ids) && starts.Keys == set s | s in ids
      ensures forall i | 0 <= i < |ids| ::
                PrefillOutcome(r.batch, old(r.slots)[ids[i]], r.slots[ids[i]], prompts[i], AllSingle(prompts),
                               starts[ids[i]], r.spec)
    {
      hide AllSingle, Flat, InPlaceForward, FedInPlace, Proposed, PrefillOutcome, Argmax;
      assert forall i | 0 <= i < |ids| :: r.slots[ids[i]].rows != [];
      hide WellFormed;
      var n := |ids|;
      var zeros := seq(n, _ => 0);
      var hids, parts := r.ForwardBatch(ids, prompts, zeros, true);
      forall i | 0 <= i < n ensures |parts[i]| == |prompts[i]| && r.slots[ids[i]].syncLen == 0 {
        PrefillShape(r.batch, old(r.slots)[ids[i]], prompts[i], AllSingle(prompts));
      }
      label forwarded:
      var lens := seq(n, i requires 0 <= i < n => |prompts[i]|);
      var last := LastRows(hids, parts, lens);
      var anchors := seq(n, i requires 0 <= i < n => Argmax(r.batch.head(last[i])));
      var shifted := seq(n, i requires 0 <= i < n => Shifted(prompts[i], anchors[i]));
      var drafts := SyncAndProposeBatch(ids, shifted, hids, parts, zeros, r.spec);
      var out := seq(n, i requires 0 <= i < n && ids[i] in drafts => Start(anchors[i], drafts[ids[i]]));
      forall i | 0 <= i < n
        ensures PrefillOutcome(r.batch, old(r.slots)[ids[i]], r.slots[ids[i]], prompts[i], AllSingle(prompts), out[i],
                               r.spec)
      {
        PrefillOfSlot(r.batch, old(r.slots)[ids[i]], old@forwarded(r.slots)[ids[i]], r.slots[ids[i]], prompts[i],
                      AllSingle(prompts), parts[i], out[i], r.spec);
      }
      starts := ByKey(ids, out);
    }

    /** The production verify round, over any distinct slots at once.  No slot's outcome
        depends on the others: each is the function of its own history stated by `Advanced`. */
    method VerifyAndCommitBatch(ids: seq<nat>, anchors: map<nat, Token>, drafts: map<nat, seq<Token>>,
          ghost hs: map<nat, seq<Token>>)
      returns (rounds: map<nat, Round>)
      requires r.Valid() && r.Known(ids) && ids != []
      requires forall i | 0 <= i < |ids| :: ids[i] in anchors && ids[i] in drafts && ids[i] in hs
      requires 1 <= |drafts[ids[0]]| <= r.spec && forall i | 0 <= i < |ids| :: |drafts[ids[i]]| == |drafts[ids[0]]|
      requires forall i | 0 <= i < |ids| :: Serving(r.batch, r.slots[ids[i]], hs[ids[i]], anchors[ids[i]])
      modifies r
      ensures r.Valid() && Untouched(old(r.slots), r.slots, ids) && rounds.Keys == set s | s in ids
      ensures forall i | 0 <= i < |ids| ::
                && Advanced(r.batch, hs[ids[i]], anchors[ids[i]], drafts[ids[i]], rounds[ids[i]])
                && Serving(r.batch, r.slots[ids[i]], Grown(hs[ids[i]], anchors[ids[i]], rounds[ids[i]]),
                           rounds[ids[i]].nextAnchor)
    {
      hide Serving, Advanced, Verified, Grown, Distinct, SelectedForward, FedSelected, Committable,
           CommittedAndProposed, Decided, Flat;
      var n, k := |ids|, |drafts[ids[0]]|;
      var full := seq(n, i requires 0 <= i < n && ids[i] in anchors && ids[i] in drafts =>
                        [anchors[ids[i]]] + drafts[ids[i]]);
      forall i | 0 <= i < n ensures r.slots[ids[i]].ready {
        ServingIsReady(r.batch, r.slots[ids[i]], hs[ids[i]], anchors[ids[i]]);
      }
      var hids, parts, decisions := VerifyAndDecide(ids, full, k);
      forall i | 0 <= i < n
        ensures Verified(r.batch, r.slots[ids[i]], hs[ids[i]], anchors[ids[i]], drafts[ids[i]], parts[i],
                         decisions[ids[i]])
      {
        VerifySlot(r.batch, old(r.slots)[ids[i]], hs[ids[i]], anchors[ids[i]], drafts[ids[i]], decisions[ids[i]]);
      }
      label decided:
      forall i | 0 <= i < n ensures Committable(r.slots[ids[i]], |drafts[ids[i]]|, parts[i], decisions[ids[i]]) {
        VerifiedFits(r.batch, r.slots[ids[i]], hs[ids[i]], anchors[ids[i]], drafts[ids[i]], parts[i],
                     decisions[ids[i]]);
      }
      rounds := CommitAndPropose(ids, anchors, decisions, hids, parts, k);
      forall i | 0 <= i < n
        ensures Advanced(r.batch, hs[ids[i]], anchors[ids[i]], drafts[ids[i]], rounds[ids[i]])
        ensures Serving(r.batch, r.slots[ids[i]], Grown(hs[ids[i]], anchors[ids[i]], rounds[ids[i]]),
                        rounds[ids[i]].nextAnchor)
      {
        FinishSlot(r.batch, old@decided(r.slots)[ids[i]], r.slots[ids[i]], hs[ids[i]], anchors[ids[i]], drafts[ids[i]],
                   parts[i], rounds[ids[i]]);
      }
    }

    /** Commit what each decision accepted and resync the draft model over exactly that:
        each slot's rows are a ragged slice of the one verify forward. */
    method CommitAndPropose(ids: seq<nat>, anchors: map<nat, Token>, decisions: map<nat, Decision>, hids: seq<Hidden>,
          ghost parts: seq<seq<Hidden>>, k: nat)
      returns (rounds: map<nat, Round>)
      requires r.Valid() && r.Known(ids) && |parts| == |ids| && hids == Flat(parts) && 1 <= k <= r.spec
      requires forall i | 0 <= i < |ids| :: ids[i] in anchors && ids[i] in decisions
      requires forall i | 0 <= i < |ids| :: Committable(r.slots[ids[i]], k, parts[i], decisions[ids[i]])
      modifies r
      ensures r.Valid() && Untouched(old(r.slots), r.slots, ids) && rounds.Keys == set s | s in ids
      ensures forall i | 0 <= i < |ids| ::
                && rounds[ids[i]].decision == decisions[ids[i]]
                && CommittedAndProposed(r.batch, old(r.slots)[ids[i]], r.slots[ids[i]], anchors[ids[i]], parts[i], k,
                                        rounds[ids[i]])
    {
      hide Flat, Proposed, RealNew, NextAnchor, Distinct, Shifted, CommittedAndProposed, Committable;
      var n := |ids|;
      var lens, next, shifted := NewTokens(ids, anchors, decisions);
      forall i | 0 <= i < n
        ensures 1 <= lens[i] <= k + 1 == |parts[i]| && r.slots[ids[i]].kvLen + lens[i] <= |r.slots[ids[i]].cache|
      {
        CommittableFits(r.slots[ids[i]], k, parts[i], decisions[ids[i]]);
      }
      CommitAccepted(ids, lens);
      hide Runner.Valid, WellFormed;
      label committed:
      var flat, cut := CutRows(hids, parts, k + 1, lens);
      var starts := SyncLengths(ids);
      var proposed := SyncAndProposeBatch(ids, shifted, flat, cut, starts, k);
      var out := seq(n, i requires 0 <= i < n && ids[i] in decisions && ids[i] in proposed =>
                       Round(decisions[ids[i]], next[i], proposed[ids[i]]));
      forall i | 0 <= i < n
        ensures CommittedAndProposed(r.batch, old(r.slots)[ids[i]], r.slots[ids[i]], anchors[ids[i]], parts[i], k,
                                     out[i])
      {
        PutTogether(r.batch, old(r.slots)[ids[i]], old@committed(r.slots)[ids[i]], r.slots[ids[i]], anchors[ids[i]],
                    parts[i], k, out[i]);
      }
      rounds := ByKey(ids, out);
    }

    method SyncLengths(ids: seq<nat>) returns (lens: seq<nat>)
      requires r.Known(ids)
      ensures |lens| == |ids| && forall i | 0 <= i < |ids| :: lens[i] == r.slots[ids[i]].syncLen
    {
      lens := [];
      for i := 0 to |ids|
        invariant |lens| == i && forall j | 0 <= j < i :: lens[j] == r.slots[ids[j]].syncLen
      {
        lens := lens + [r.slots[ids[i]].syncLen];
      }
    }

    /** Verify every slot's draft and decide it. */
    method VerifyAndDecide(ids: seq<nat>, full: seq<seq<Token>>, k: nat)
      returns (hids: seq<Hidden>, ghost parts: seq<seq<Hidden>>, decisions: map<nat, Decision>)
      requires r.Valid() && r.Known(ids) && |full| == |ids| && k <= r.spec
      requires forall i | 0 <= i < |ids| :: |full[i]| == k + 1 && r.slots[ids[i]].ready
      modifies r
      ensures r.Valid() && Untouched(old(r.slots), r.slots, ids)
      ensures |parts| == |ids| && hids == Flat(parts) && decisions.Keys == set s | s in ids
      ensures forall i | 0 <= i < |ids| ::
                && r.slots[ids[i]] == SelectedForward(r.batch, old(r.slots)[ids[i]], full[i])
                && parts[i] == FedSelected(r.batch, old(r.slots)[ids[i]], full[i]).hiddens
                && Decided(full[i], Heads(r.batch, parts[i]), decisions[ids[i]])
    {
      hide Flat, SelectedForward, FedSelected, Block, Heads, Decided;
      var n := |ids|;
      var kv := r.KvLengths(ids);
      hids, parts := r.VerifyBatchSpec(ids, full, kv);
      hide WellFormed;
      UniformLength(parts, k + 1);
      var bySlot := ByKey(ids, full);
      decisions := DetermineBatch(ids, bySlot, Heads(r.batch, hids), k);
      forall i | 0 <= i < n ensures Decided(full[i], Heads(r.batch, parts[i]), decisions[ids[i]]) {
        UniformSlice(parts, i, k + 1);
        HeadsBlock(r.batch, hids, i, k + 1);
      }
    }

    /** The length and the selected row advance by what was really committed. */
    method CommitAccepted(ids: seq<nat>, lens: seq<nat>)
      requires r.Valid() && r.Known(ids) && |ids| == |lens|
      requires forall i | 0 <= i < |ids| ::
                 1 <= lens[i] <= r.spec + 1 && r.slots[ids[i]].kvLen + lens[i] <= |r.slots[ids[i]].cache|
      modifies r
      ensures r.Valid() && Untouched(old(r.slots), r.slots, ids)
      ensures forall i | 0 <= i < |ids| ::
                r.slots[ids[i]] == old(r.slots)[ids[i]].(kvLen := old(r.slots)[ids[i]].kvLen + lens[i],
                                                         accepted := lens[i])
    {
      for i := 0 to |ids|
        invariant r.Valid() && |r.slots| == |old(r.slots)|
        invariant forall s | 0 <= s < |r.slots| && s !in ids[..i] :: r.slots[s] == old(r.slots)[s]
        invariant forall j | 0 <= j < i ::
                    r.slots[ids[j]] == old(r.slots)[ids[j]].(kvLen := old(r.slots)[ids[j]].kvLen + lens[j],
                                                             accepted := lens[j])
      {
        var s := ids[i];
        assert s !in ids[..i];
        r.slots := r.slots[s := r.slots[s].(kvLen := r.slots[s].kvLen + lens[i], accepted := lens[i])];
      }
      assert ids[..|ids|] == ids;
    }
  }

  /** The history a round leaves behind. */
  function Grown(h: seq<Token>, anchor: Token, out: Round): seq<Token>
  {
    h + RealNew(anchor, out.decision)
  }

  /** What one round reports is a function of the slot's history, its anchor and its drafts. */
  ghost predicate Advanced(net: Net, h: seq<Token>, anchor: Token, drafts: seq<Token>, out: Round) {
    && h != [] && 1 <= |drafts|
    && out.decision == Decide(net, h, anchor, drafts)
    && out.nextAnchor == NextAnchor(out.decision)
    && out.nextDrafts == Drafts(net, Grown(h, anchor, out), out.nextAnchor, |drafts|)
  }

  /** A slot whose drafts were verified and judged but not yet committed. */
  ghost predicate Verified(net: Net, s: Slot, h: seq<Token>, anchor: Token, drafts: seq<Token>, part: seq<Hidden>,
        d: Decision)
  {
    && h != [] && AheadSelected(net, s, h, [anchor] + drafts) && Aligned(net, s, h, anchor)
    && HiddensAlong(net, h, [anchor] + drafts, part)
    && d == Decide(net, h, anchor, drafts)
  }

  lemma VerifiedFits(net: Net, s: Slot, h: seq<Token>, anchor: Token, drafts: seq<Token>, part: seq<Hidden>,
        d: Decision)
    requires Verified(net, s, h, anchor, drafts, part, d)
    ensures Committable(s, |drafts|, part, d)
  {
    hide Decide, Fold, HiddenOf;
  }

  lemma ServingIsReady(net: Net, s: Slot, h: seq<Token>, anchor: Token)
    requires Serving(net, s, h, anchor)
    ensures s.ready
  {
  }

  lemma HeadsBlock(net: Net, hids: seq<Hidden>, i: nat, w: nat)
    ensures Block(Heads(net, hids), i, w) == Heads(net, Block(hids, i, w))
  {
    hide Heads;
    if i * w + w <= |hids| {
      var a, b := Block(Heads(net, hids), i, w), Heads(net, Block(hids, i, w));
      assert |a| == |b| == w;
      forall j | 0 <= j < w ensures a[j] == b[j] {
        assert Block(hids, i, w)[j] == hids[i * w + j];
      }
    }
  }

  lemma VerifySlot(net: Net, s: Slot, h: seq<Token>, anchor: Token, drafts: seq<Token>, d: Decision)
    requires Serving(net, s, h, anchor) && |drafts| + 1 <= |s.rows| && s.kvLen <= |s.cache|
    requires Decided([anchor] + drafts, Heads(net, FedSelected(net, s, [anchor] + drafts).hiddens), d)
    ensures Verified(net, SelectedForward(net, s, [anchor] + drafts), h, anchor, drafts,
                     FedSelected(net, s, [anchor] + drafts).hiddens, d)
  {
    hide Feed, HiddenOf, Fold, Verdict, Heads, Choices, DraftKvs, Predictions, HiddensAlong, AheadSelected;
    SelectedFollowsHistory(net, s, h, [anchor] + drafts);
    ChoicesArePredictions(net, h, [anchor] + drafts, FedSelected(net, s, [anchor] + drafts).hiddens);
  }

  ghost predicate Committable(s: Slot, k: nat, part: seq<Hidden>, d: Decision) {
    && d.accepted <= k && |part| == k + 1
    && s.kvLen + d.accepted + 1 <= |s.cache|
  }

  lemma CommittableFits(s: Slot, k: nat, part: seq<Hidden>, d: Decision)
    requires Committable(s, k, part, d)
    ensures d.accepted <= k && |part| == k + 1 && s.kvLen + d.accepted + 1 <= |s.cache|
  {
  }

  /** Per request: how many tokens became real, the next anchor, and the draft model's
      view of them, shifted by one. */
  method NewTokens(ids: seq<nat>, anchors: map<nat, Token>, decisions: map<nat, Decision>)
    returns (lens: seq<nat>, next: seq<Token>, shifted: seq<seq<Token>>)
    requires forall i | 0 <= i < |ids| :: ids[i] in anchors && ids[i] in decisions
    ensures |lens| == |next| == |shifted| == |ids|
    ensures forall i | 0 <= i < |ids| ::
              && lens[i] == decisions[ids[i]].accepted + 1 == |shifted[i]|
              && next[i] == NextAnchor(decisions[ids[i]])
              && shifted[i] == Shifted(RealNew(anchors[ids[i]], decisions[ids[i]]), next[i])
  {
    lens, next, shifted := [], [], [];
    for i := 0 to |ids|
      invariant |lens| == |next| == |shifted| == i
      invariant forall j | 0 <= j < i ::
                  && lens[j] == decisions[ids[j]].accepted + 1 == |shifted[j]|
                  && next[j] == NextAnchor(decisions[ids[j]])
                  && shifted[j] == Shifted(RealNew(anchors[ids[j]], decisions[ids[j]]), next[j])
    {
      var d := decisions[ids[i]];
      lens, next := lens + [d.accepted + 1], next + [NextAnchor(d)];
      shifted := shifted + [Shifted(RealNew(anchors[ids[i]], d), NextAnchor(d))];
    }
  }

  /** Commit, then resync and propose, for one slot. */
  ghost predicate CommittedAndProposed(net: Net, s: Slot, s': Slot, anchor: Token, part: seq<Hidden>, k: nat,
        out: Round)
  {
    var n := out.decision.accepted + 1;
    && n <= |part|
    && out.nextAnchor == NextAnchor(out.decision)
    && Proposed(net, s.(kvLen := s.kvLen + n, accepted := n), s',
                Shifted(RealNew(anchor, out.decision), out.nextAnchor), part[..n], k, out.nextDrafts)
  }

  lemma PutTogether(net: Net, s: Slot, mid: Slot, s': Slot, anchor: Token, part: seq<Hidden>, k: nat, out: Round)
    requires out.decision.accepted + 1 <= |part| && out.nextAnchor == NextAnchor(out.decision)
    requires mid == s.(kvLen := s.kvLen + out.decision.accepted + 1, accepted := out.decision.accepted + 1)
    requires Proposed(net, mid, s', Shifted(RealNew(anchor, out.decision), out.nextAnchor),
                      part[..out.decision.accepted + 1], k, out.nextDrafts)
    ensures CommittedAndProposed(net, s, s', anchor, part, k, out)
  {
    hide Proposed;
  }

  lemma FinishSlot(net: Net, s: Slot, s': Slot, h: seq<Token>, anchor: Token, drafts: seq<Token>, part: seq<Hidden>,
        out: Round)
    requires Verified(net, s, h, anchor, drafts, part, out.decision) && 1 <= |drafts|
    requires CommittedAndProposed(net, s, s', anchor, part, |drafts|, out)
    ensures Advanced(net, h, anchor, drafts, out)
    ensures Serving(net, s', Grown(h, anchor, out), out.nextAnchor)
  {
    hide HiddenOf, Fold, Decide, Drafts, DraftKvs, Propose;
    var draft, n := [anchor] + drafts, out.decision.accepted + 1;
    var t := s.(kvLen := s.kvLen + n, accepted := n);
    DecisionIsLossless(net, h, anchor, drafts);
    assert RealNew(anchor, out.decision) == draft[..n];
    SelectRow(net, s, h, draft, n);
    HiddensPrefix(net, h, draft, part, n);
    ProposedFollowsHistory(net, t, s', h, anchor, draft[..n], out.nextAnchor, part[..n], |drafts|, out.nextDrafts);
  }

  /** A freshly prefilled slot serves its prompt under either representation. */
  ghost predicate Prefilled(net: Net, s: Slot, prompt: seq<Token>, start: Start, k: nat) {
    && prompt != [] && 1 <= k && s.accepted == 1
    && Serving(net, s, prompt, start.anchor) && ServingInPlace(net, s, prompt, start.anchor)
    && start.anchor == Next(net, prompt) && start.drafts == Drafts(net, prompt, start.anchor, k)
  }

  /** What batched prefill does to one fresh slot.  A batch of one-token prompts takes the
      decode path and resumes from whatever row 0 the slot's last occupant left; every other
      batch starts clean. */
  ghost predicate PrefillOutcome(net: Net, s: Slot, s': Slot, prompt: seq<Token>, decode: bool, start: Start, k: nat) {
    && |start.drafts| == k
    && (!decode || (s.rows != [] && s.rows[0] == BLANK) ==> Prefilled(net, s', prompt, start, k))
    && (decode && |prompt| == 1 ==>
          (InPlace(net, s', prompt) <==> s.rows != [] && CannotTell(net, s.rows[0], prompt[0])))
  }

  lemma PrefillShape(net: Net, s: Slot, prompt: seq<Token>, decode: bool)
    requires Fresh(s) && s.rows != [] && prompt != []
    ensures |FedInPlace(net, s, prompt, decode).hiddens| == |prompt|
    ensures InPlaceForward(net, s, prompt, decode, true).syncLen == 0
  {
  }

  lemma PrefillOfSlot(net: Net, s: Slot, t: Slot, s': Slot, prompt: seq<Token>, decode: bool, hids: seq<Hidden>,
        start: Start, k: nat)
    requires Fresh(s) && s.rows != [] && prompt != [] && 1 <= k
    requires hids == FedInPlace(net, s, prompt, decode).hiddens && t == InPlaceForward(net, s, prompt, decode, true)
    requires start.anchor == Argmax(net.head(hids[|hids| - 1]))
    requires Proposed(net, t, s', Shifted(prompt, start.anchor), hids, k, start.drafts)
    ensures PrefillOutcome(net, s, s', prompt, decode, start, k)
  {
    hide HiddenOf, Drafts, DraftKvs, Continue, Feed, Sync, Argmax;
    if !decode || (s.rows != [] && s.rows[0] == BLANK) {
      PrefillClean(net, s, t, s', prompt, decode, hids, start, k);
    }
    if decode && |prompt| == 1 {
      assert prompt == [prompt[0]];
      DecodePrefillReadsOldRow(net, s, prompt[0]);
    }
  }

  lemma PrefillClean(net: Net, s: Slot, t: Slot, s': Slot, prompt: seq<Token>, decode: bool, hids: seq<Hidden>,
        start: Start, k: nat)
    requires Fresh(s) && s.rows != [] && prompt != [] && 1 <= k && (!decode || s.rows[0] == BLANK)
    requires hids == FedInPlace(net, s, prompt, decode).hiddens && t == InPlaceForward(net, s, prompt, decode, true)
    requires start.anchor == Argmax(net.head(hids[|hids| - 1]))
    requires Proposed(net, t, s', Shifted(prompt, start.anchor), hids, k, start.drafts)
    ensures Prefilled(net, s', prompt, start, k)
  {
    hide HiddenOf, Drafts, DraftKvs, Continue, Feed, Sync, Argmax;
    InPlaceFollowsHistory(net, s, [], prompt, decode);
    assert [] + prompt == prompt && prompt[..|prompt| - 1 + 1] == prompt;
    assert t.draft[..0] == [];
    ProposedFollowsHistory(net, t, s', [], 0, prompt, start.anchor, hids, k, start.drafts);
  }

  /** The last row of every request of a flat output. */
  method LastRows(outs: seq<Hidden>, ghost parts: seq<seq<Hidden>>, lens: seq<nat>) returns (last: seq<Hidden>)
    requires outs == Flat(parts) && |parts| == |lens|
    requires forall i | 0 <= i < |lens| :: 0 < lens[i] == |parts[i]|
    ensures |last| == |lens| && forall i | 0 <= i < |lens| :: last[i] == parts[i][|parts[i]| - 1]
  {
    hide Flat;
    FlatNil<Hidden>();
    last := [];
    var from := 0;
    assert parts[..0] == [];
    for i := 0 to |lens|
      invariant from == Offset(parts, i) && |last| == i
      invariant forall j | 0 <= j < i :: last[j] == parts[j][|parts[j]| - 1]
    {
      RaggedSlice(parts, i);
      from := from + lens[i];
      assert outs[from - 1] == outs[Offset(parts, i)..from][lens[i] - 1];
      last := last + [outs[from - 1]];
    }
  }

  method ByKey<T>(ids: seq<nat>, values: seq<T>) returns (m: map<nat, T>)
    requires Distinct(ids) && |ids| == |values|
    ensures m.Keys == set s | s in ids
    ensures forall i | 0 <= i < |ids| :: m[ids[i]] == values[i]
  {
    m := map[];
    for i := 0 to |ids|
      invariant m.Keys == set s | s in ids[..i]
      invariant forall j | 0 <= j < i :: ids[j] in m && m[ids[j]] == values[j]
    {
      m := m[ids[i] := values[i]];
      assert ids[..i + 1] == ids[..i] + [ids[i]];
    }
    assert ids[..|ids|] == ids;
  }

  ghost function ByKeyGhost<T>(ids: seq<nat>, values: seq<T>): (m: map<nat, T>)
    requires Distinct(ids) && |ids| == |values|
    ensures forall i | 0 <= i < |ids| :: ids[i] in m && m[ids[i]] == values[i]
  {
    if ids == [] then map[]
    else
      var n := |ids| - 1;
      ByKeyGhost(ids[..n], values[..n])[ids[n] := values[n]]
  }

  /** `s'` is `s` after step 0 over `shifted`, and `t` is where that leaves the draft. */
  ghost predicate Synced(net: Net, s: Slot, s': Slot, shifted: seq<Token>, hids: seq<Hidden>, t: Trail) {
    && 0 < |shifted| == |hids| && s.syncLen <= |s.draft|
    && t == Sync(net, s.draft, shifted, hids, s.syncLen, s.syncLen)
    && s' == s.(draft := t.cache, syncLen := s.syncLen + |shifted|)
  }

  lemma SyncedLength(net: Net, s: Slot, s': Slot, shifted: seq<Token>, hids: seq<Hidden>, t: Trail)
    requires Synced(net, s, s', shifted, hids, t)
    ensures s.syncLen + |shifted| <= |t.cache| && t.tokens != []
  {
  }

  /** `s'` is `s` after the exploratory steps of a proposal that had reached `t`. */
  ghost predicate Continued(net: Net, s: Slot, s': Slot, t: Trail, pos: nat, prior: nat, k: nat, tokens: seq<Token>) {
    && pos <= |t.cache| && t.tokens != [] && 1 <= k
    && var u := Continue(net, t, pos, prior, false, k - 1);
       s' == s.(draft := u.cache) && tokens == u.tokens
  }

  lemma SyncThenContinue(net: Net, s: Slot, s1: Slot, s2: Slot, shifted: seq<Token>, hids: seq<Hidden>, t: Trail,
        k: nat, tokens: seq<Token>)
    requires Synced(net, s, s1, shifted, hids, t)
    requires Continued(net, s1, s2, t, s.syncLen + |shifted|, s.syncLen + |shifted|, k, tokens)
    ensures Proposed(net, s, s2, shifted, hids, k, tokens)
  {
    hide Sync, Continue;
  }

  /** `s'` is `s` after the propose funnel over `shifted`. */
  ghost predicate Proposed(net: Net, s: Slot, s': Slot, shifted: seq<Token>, hids: seq<Hidden>, k: nat,
        drafts: seq<Token>)
  {
    && 0 < |shifted| == |hids| && s.syncLen <= |s.draft| && 1 <= k
    && var p := Propose(net, s.draft, shifted, hids, s.syncLen, s.syncLen, false, k);
       s' == s.(draft := p.cache, syncLen := s.syncLen + |shifted|) && drafts == p.tokens
  }

  /** On an aligned slot the funnel keeps the alignment and proposes what the history
      deserves. */
  lemma ProposedFollowsHistory(net: Net, s: Slot, s': Slot, h: seq<Token>, anchor: Token, news: seq<Token>, next: Token,
        hids: seq<Hidden>, k: nat, drafts: seq<Token>)
    requires Aligned(net, s, h, anchor) && news != [] && (h != [] ==> news[0] == anchor) && 1 <= k
    requires HiddensAlong(net, h, news, hids)
    requires Proposed(net, s, s', Shifted(news, next), hids, k, drafts)
    ensures Aligned(net, s', h + news, next) && drafts == Drafts(net, h + news, next, k)
  {
    hide Propose, DraftKvs, Drafts, HiddenOf, Fold;
    ProposeFollowsHistory(net, s.draft, h, anchor, news, next, hids, k);
  }

  /** A slot and its proposal are where a trail says. */
  ghost predicate At(s: Slot, tokens: seq<Token>, hidden: Hidden, t: Trail) {
    s.draft == t.cache && tokens == t.tokens != [] && hidden == t.hidden
  }

  lemma AtMeans(s: Slot, tokens: seq<Token>, hidden: Hidden, t: Trail)
    requires At(s, tokens, hidden, t)
    ensures s.draft == t.cache && tokens == t.tokens
  {
  }

  lemma SyncParts(net: Net, cache: seq<Kv>, toks: seq<Token>, hids: seq<Hidden>, start: nat, prior: nat)
    requires 0 < |toks| == |hids| && start <= |cache|
    ensures var t := Sync(net, cache, toks, hids, start, prior);
            && t.cache == Overlay(cache, start, DraftRows(net, toks, hids, start))
            && t.hidden == DraftOuts(net, t.cache, toks, hids, start, prior)[|toks| - 1]
            && t.tokens == [Argmax(net.draftHead(t.hidden))]
            && t.calls == [Call(start, prior, |toks|)]
  {
  }

  /** A one-row draft forward is an exploratory step. */
  lemma SingleRow(net: Net, u: Trail, at: nat, seen: nat)
    requires at <= |u.cache| && u.tokens != []
    ensures var tok, v := u.tokens[|u.tokens| - 1], Explore(net, u, at, seen);
            && Overlay(u.cache, at, DraftRows(net, [tok], [u.hidden], at)) == v.cache
            && DraftOuts(net, v.cache, [tok], [u.hidden], at, seen) == [v.hidden]
            && v.tokens == u.tokens + [Argmax(net.draftHead(v.hidden))]
            && v.calls == u.calls + [Call(at, seen, 1)]
  {
    var tok := u.tokens[|u.tokens| - 1];
    assert [tok][..0] == [] && [u.hidden][..0] == [];
  }
}
