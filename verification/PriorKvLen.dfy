/**
  The history length handed to the draft model's attention, and the historical bug of not
  advancing it.
 */
module PriorKvLens {
  import opened Backends
  import opened Drafting
  import opened Network
  import opened Runners
  import opened Slots

  /** A fresh slot after its target prefill, and what the draft model is then given. */
  method PrefillForDraft(r: Runner, slot: nat, prompt: seq<Token>) returns (anchor: Token, hidden: seq<Hidden>)
    requires r.Valid() && slot < |r.slots| && prompt != []
    requires r.slots[slot].kvLen == 0 ==> Fresh(r.slots[slot])
    modifies r
    ensures r.Valid() && Untouched(old(r.slots), r.slots, [slot])
    ensures ServedPrompt(r.single, r.slots[slot], prompt, anchor, hidden)
    ensures r.slots[slot].draft == old(r.slots)[slot].draft
  {
    hide HiddenOf, Argmax, Fold;
    if r.slots[slot].kvLen != 0 {
      r.ResetSlot(slot);
    }
    InPlaceFollowsHistory(r.single, r.slots[slot], [], prompt, false);
    hidden := r.Forward(slot, prompt, false);
    anchor := Argmax(r.single.head(hidden[|hidden| - 1]));
    assert [] + prompt == prompt && prompt[..|prompt| - 1 + 1] == prompt;
    assert r.slots[slot].draft[..0] == [];
  }

  ghost predicate ServedPrompt(net: Net, s: Slot, prompt: seq<Token>, anchor: Token, hidden: seq<Hidden>) {
    && prompt != [] && InPlace(net, s, prompt) && Aligned(net, s, [], 0)
    && HiddensAlong(net, [], prompt, hidden) && anchor == Next(net, prompt)
  }

  /** The instrumented check, for any k: every draft forward of a prefill's proposal claims
      exactly the history that lies before its write position. */
  method CheckInvariantForK(b: Backend, slot: nat, prompt: seq<Token>, k: nat)
    returns (allMatch: bool, calls: seq<Call>, drafts: seq<Token>)
    requires b.r.Valid() && slot < |b.r.slots| && prompt != [] && 1 <= k
    requires b.r.slots[slot].kvLen == 0 ==> Fresh(b.r.slots[slot])
    modifies b.r
    ensures b.r.Valid() && allMatch && |calls| == k && calls[0] == Call(0, 0, |prompt|)
    ensures forall j | 1 <= j < k :: calls[j] == Call(|prompt| + j - 1, |prompt| + j - 1, 1)
    ensures slot < |b.r.slots| && b.r.slots[slot].syncLen == b.r.slots[slot].kvLen == |prompt|
    ensures drafts == Drafts(b.r.single, prompt, Next(b.r.single, prompt), k)
  {
    hide HiddenOf, Fold, Drafts, Next, Propose;
    var anchor, hidden := PrefillForDraft(b.r, slot, prompt);
    ghost var s := b.r.slots[slot];
    drafts, calls := b.SyncAndPropose(slot, Shifted(prompt, anchor), hidden, 0, k);
    CallsOfPropose(b.r.single, s.draft, Shifted(prompt, anchor), hidden, 0, 0, false, k);
    PriorMatchesStart(b.r.single, s.draft, Shifted(prompt, anchor), hidden, 0, 0, k);
    ProposeFollowsHistory(b.r.single, s.draft, [], 0, prompt, anchor, hidden, k);
    assert [] + prompt == prompt;
    allMatch := true;
    for i := 0 to |calls|
      invariant allMatch && forall j | 0 <= j < i :: calls[j].prior == calls[j].start
    {
      assert calls[i] in calls;
      allMatch := allMatch && calls[i].prior == calls[i].start;
    }
  }

  /** Step 0: the draft cache learns the real tokens, and the history length moves past them. */
  method TeachDraft(b: Backend, slot: nat, shifted: seq<Token>, hidden: seq<Hidden>) returns (last: Hidden)
    requires b.r.Valid() && slot < |b.r.slots| && 0 < |shifted| == |hidden| && b.r.slots[slot].syncLen == 0
    modifies b.r
    ensures b.r.Valid() && Untouched(old(b.r.slots), b.r.slots, [slot]) && b.r.slots[slot].syncLen == |shifted|
    ensures var t := Sync(b.r.single, old(b.r.slots)[slot].draft, shifted, hidden, 0, 0);
            b.r.slots[slot].draft == t.cache && last == t.hidden
  {
    hide Sync, DraftRows, DraftOuts, Overlay;
    SyncParts(b.r.single, b.r.slots[slot].draft, shifted, hidden, 0, 0);
    var outs := b.DraftForward(slot, shifted, hidden, 0, b.r.slots[slot].syncLen);
    b.r.slots := b.r.slots[slot := b.r.slots[slot].(syncLen := b.r.slots[slot].syncLen + |shifted|)];
    last := outs[|outs| - 1];
  }

  /** The propose loop with the history length either advancing or frozen after step 0. */
  method ProposeVariant(b: Backend, frozen: bool, slot: nat, shifted: seq<Token>, hidden: seq<Hidden>, k: nat)
    returns (drafts: seq<Token>)
    requires b.r.Valid() && slot < |b.r.slots| && 0 < |shifted| == |hidden| && 1 <= k
    requires b.r.slots[slot].syncLen == 0
    modifies b.r
    ensures b.r.Valid() && Untouched(old(b.r.slots), b.r.slots, [slot])
    ensures drafts == Propose(b.r.single, old(b.r.slots)[slot].draft, shifted, hidden, 0, 0, frozen, k).tokens
  {
    hide Sync, DraftRows, DraftOuts, Overlay, Explore, Continue, WellFormed;
    ghost var net, s := b.r.single, b.r.slots[slot];
    ghost var t, pos := Sync(net, s.draft, shifted, hidden, 0, 0), |shifted|;
    SyncParts(net, s.draft, shifted, hidden, 0, 0);
    ContinueZero(net, t, pos, pos, frozen);
    var prevHidden := TeachDraft(b, slot, shifted, hidden);
    var frozenPrior := b.r.slots[slot].syncLen;
    drafts := [Argmax(b.r.single.draftHead(prevHidden))];
    var nextPos, running := |shifted|, frozenPrior;
    for i := 1 to k
      invariant b.r.Valid() && nextPos == pos + i - 1 && running == pos + i - 1
      invariant Untouched(old(b.r.slots), b.r.slots, [slot]) && slot < |b.r.slots|
      invariant At(b.r.slots[slot], drafts, prevHidden, Continue(net, t, pos, pos, frozen, i - 1))
    {
      var prior := if frozen then frozenPrior else running;
      ghost var u := Continue(net, t, pos, pos, frozen, i - 1);
      ContinueStep(net, t, pos, pos, frozen, i - 1);
      SingleRow(net, u, nextPos, prior);
      var outs := b.DraftForward(slot, [drafts[|drafts| - 1]], [prevHidden], nextPos, prior);
      prevHidden := outs[0];
      drafts := drafts + [Argmax(b.r.single.draftHead(prevHidden))];
      nextPos, running := nextPos + 1, running + 1;
    }
  }

  /** What the frozen variant proposes for a prompt on a draft cache whose entries past the prompt
      are `stale`. */
  ghost function FrozenDrafts(net: Net, prompt: seq<Token>, stale: seq<Kv>, k: nat): seq<Token>
    requires prompt != [] && 1 <= k
  {
    Propose(net, stale, Shifted(prompt, Next(net, prompt)), Hiddens(net, prompt), 0, 0, true, k).tokens
  }

  /** The demonstration on twin slots: the fixed variant proposes what the history deserves, the
      frozen one the frozen loop's proposal, and for every model the two agree on the first two
      drafts. */
  method DemonstrateOldBug(b: Backend, slot: nat, prompt: seq<Token>, k: nat)
    returns (fixed: seq<Token>, buggy: seq<Token>, diverged: bool)
    requires b.r.Valid() && slot + 1 < |b.r.slots| && prompt != [] && 1 <= k
    requires forall s | slot <= s <= slot + 1 :: b.r.slots[s].kvLen == 0 ==> Fresh(b.r.slots[s])
    modifies b.r
    ensures b.r.Valid() && |fixed| == |buggy| == k && (diverged <==> fixed != buggy)
    ensures fixed == Drafts(b.r.single, prompt, Next(b.r.single, prompt), k)
    ensures buggy == FrozenDrafts(b.r.single, prompt, old(b.r.slots)[slot + 1].draft, k)
    ensures forall j | 0 <= j < k && j < 2 :: fixed[j] == buggy[j]
  {
    hide HiddenOf, Fold, Drafts, Next, Propose;
    var anchor, hidden := PrefillForDraft(b.r, slot, prompt);
    ghost var s := b.r.slots[slot];
    fixed := ProposeVariant(b, false, slot, Shifted(prompt, anchor), hidden, k);
    var anchor', hidden' := PrefillForDraft(b.r, slot + 1, prompt);
    ghost var s' := b.r.slots[slot + 1];
    buggy := ProposeVariant(b, true, slot + 1, Shifted(prompt, anchor'), hidden', k);
    diverged := fixed != buggy;
    assert [] + prompt == prompt;
    ProposeFollowsHistory(b.r.single, s.draft, [], 0, prompt, anchor, hidden, k);
    ProposeFollowsHistory(b.r.single, s'.draft, [], 0, prompt, anchor, hidden, k);
    assert hidden == hidden' by {
      assert forall j | 0 <= j < |prompt| :: hidden[j] == hidden'[j];
    }
    HiddensGrow(b.r.single, [], prompt, hidden);
    assert Hiddens(b.r.single, prompt) == hidden;
    ProposeLength(b.r.single, s'.draft, Shifted(prompt, anchor), hidden, 0, true, k);
    forall j | 0 <= j < k && j < 2 ensures fixed[j] == buggy[j] {
      FrozenFirstTwoAgree(b.r.single, s'.draft, Shifted(prompt, anchor), hidden, 0, k, j);
    }
  }

  lemma ProposeLength(net: Net, cache: seq<Kv>, toks: seq<Token>, hids: seq<Hidden>, start: nat, frozen: bool, k: nat)
    requires 0 < |toks| == |hids| && start <= |cache| && 1 <= k
    ensures |Propose(net, cache, toks, hids, start, start, frozen, k).tokens| == k
  {
  }
}
