/**
  The runner: one record per slot, mutated by every forward.

  The single-request and the batched forwards are different kernels on the real machine, so
  each has its own model here (`single`, `batch`); a result that needs them to agree says so.
 */
module Runners {
  import opened AcceptReject
  import opened Batches
  import opened Network
  import opened Outcomes
  import opened Slots

  /** What a verify round reports for one slot. */
  datatype Round = Round(decision: Decision, nextAnchor: Token, nextDrafts: seq<Token>)

  datatype Start = Start(anchor: Token, drafts: seq<Token>)

  ghost predicate Distinct(ids: seq<nat>) {
    forall i, j | 0 <= i < j < |ids| :: ids[i] != ids[j]
  }

  /** Every request brings exactly one token: the batch takes the decode path. */
  predicate AllSingle(toks: seq<seq<Token>>) {
    forall i | 0 <= i < |toks| :: |toks[i]| == 1
  }

  /** Slots outside `ids` are exactly as they were. */
  ghost predicate Untouched(before: seq<Slot>, after: seq<Slot>, ids: seq<nat>) {
    |before| == |after| && forall s | 0 <= s < |before| && s !in ids :: after[s] == before[s]
  }

  /** A slot between production rounds. */
  ghost predicate Serving(net: Net, s: Slot, h: seq<Token>, anchor: Token) {
    h != [] && Selected(net, s, h) && Aligned(net, s, h, anchor)
  }

  /** A slot between snapshot-and-recompute rounds. */
  ghost predicate ServingInPlace(net: Net, s: Slot, h: seq<Token>, anchor: Token) {
    h != [] && InPlace(net, s, h) && Aligned(net, s, h, anchor)
  }

  class Runner {
    const single: Net
    const batch: Net
    const spec: nat
    var slots: seq<Slot>

    ghost predicate Valid()
      reads this
    {
      1 <= spec && forall s | 0 <= s < |slots| :: WellFormed(slots[s], spec)
    }

    ghost predicate Known(ids: seq<nat>)
      reads this
    {
      Distinct(ids) && forall i | 0 <= i < |ids| :: ids[i] < |slots|
    }

    constructor (single: Net, batch: Net, spec: nat, numSlots: nat)
      requires 1 <= spec
      ensures Valid() && this.single == single && this.batch == batch && this.spec == spec
      ensures |slots| == numSlots && forall s | 0 <= s < numSlots :: Fresh(slots[s]) && slots[s].rows[0] == BLANK
    {
      this.single := single;
      this.batch := batch;
      this.spec := spec;
      slots := seq(numSlots, _ => Slot([], 0, seq(spec + 1, _ => BLANK), 1, false, [], 0, 0, 0, {}));
    }

    // -------------------------------------------------------------------------
    // Target forwards.
    // -------------------------------------------------------------------------

    /** Single-request forward; always commits. */
    method Forward(slot: nat, toks: seq<Token>, isDecode: bool) returns (hids: seq<Hidden>)
      requires Valid() && slot < |slots| && toks != [] && (isDecode ==> |toks| == 1)
      modifies this
      ensures Valid()
      ensures slots == old(slots)[slot := InPlaceForward(single, old(slots)[slot], toks, isDecode, true)]
      ensures hids == FedInPlace(single, old(slots)[slot], toks, isDecode).hiddens
    {
      hids := FedInPlace(single, slots[slot], toks, isDecode).hiddens;
      slots := slots[slot := InPlaceForward(single, slots[slot], toks, isDecode, true)];
    }

    /** Batched forward over several slots, each with its own number of new tokens.  Rows
        come back flat, in request-then-position order. */
    method ForwardBatch(ids: seq<nat>, toks: seq<seq<Token>>, kvLens: seq<nat>, commit: bool)
      returns (hids: seq<Hidden>, ghost parts: seq<seq<Hidden>>)
      requires Valid() && Known(ids) && |ids| == |toks| == |kvLens|
      requires forall i | 0 <= i < |ids| :: toks[i] != [] && kvLens[i] == slots[ids[i]].kvLen
      requires forall i | 0 <= i < |ids| :: slots[ids[i]].ready || kvLens[i] == 0
      modifies this
      ensures Valid() && Untouched(old(slots), slots, ids)
      ensures |parts| == |ids| && hids == Flat(parts)
      ensures var decode := AllSingle(toks);
              forall i | 0 <= i < |ids| ::
                && slots[ids[i]] == InPlaceForward(batch, old(slots)[ids[i]], toks[i], decode, commit)
                && parts[i] == FedInPlace(batch, old(slots)[ids[i]], toks[i], decode).hiddens
    {
      hide InPlaceForward, FedInPlace, AllSingle, Flat;
      var decode := AllSingle(toks);
      hids, parts := [], [];
      FlatNil<Hidden>();
      for i := 0 to |ids|
        invariant |parts| == i && hids == Flat(parts)
        invariant Valid() && |slots| == |old(slots)|
        invariant forall s | 0 <= s < |slots| && s !in ids[..i] :: slots[s] == old(slots)[s]
        invariant forall j | 0 <= j < i ::
                    && slots[ids[j]] == InPlaceForward(batch, old(slots)[ids[j]], toks[j], decode, commit)
                    && parts[j] == FedInPlace(batch, old(slots)[ids[j]], toks[j], decode).hiddens
      {
        var s := ids[i];
        assert s !in ids[..i];
        var rows := FedInPlace(batch, slots[s], toks[i], decode).hiddens;
        InPlaceWellFormed(batch, slots[s], toks[i], decode, commit, spec);
        slots := slots[s := InPlaceForward(batch, slots[s], toks[i], decode, commit)];
        FlatSnoc(parts, rows);
        hids, parts := hids + rows, parts + [rows];
      }
      assert ids[..|ids|] == ids;
    }

    method KvLengths(ids: seq<nat>) returns (lens: seq<nat>)
      requires Known(ids)
      ensures |lens| == |ids| && forall i | 0 <= i < |ids| :: lens[i] == slots[ids[i]].kvLen
    {
      lens := [];
      for i := 0 to |ids|
        invariant |lens| == i && forall j | 0 <= j < i :: lens[j] == slots[ids[j]].kvLen
      {
        lens := lens + [slots[ids[i]].kvLen];
      }
    }

    /** Verify: the rows are written but no length advances. */
    method VerifyBatch(ids: seq<nat>, drafts: seq<seq<Token>>, kvLens: seq<nat>)
      returns (hids: seq<Hidden>, ghost parts: seq<seq<Hidden>>)
      requires Valid() && Known(ids) && |ids| == |drafts| == |kvLens|
      requires forall i | 0 <= i < |ids| :: drafts[i] != [] && kvLens[i] == slots[ids[i]].kvLen
      requires forall i | 0 <= i < |ids| :: slots[ids[i]].ready || kvLens[i] == 0
      modifies this
      ensures Valid() && Untouched(old(slots), slots, ids)
      ensures |parts| == |ids| && hids == Flat(parts)
      ensures var decode := AllSingle(drafts);
              forall i | 0 <= i < |ids| ::
                && slots[ids[i]] == InPlaceForward(batch, old(slots)[ids[i]], drafts[i], decode, false)
                && parts[i] == FedInPlace(batch, old(slots)[ids[i]], drafts[i], decode).hiddens
    {
      hids, parts := ForwardBatch(ids, drafts, kvLens, false);
    }

    /** Verify through per-position candidate rows. */
    method VerifyBatchSpec(ids: seq<nat>, drafts: seq<seq<Token>>, kvLens: seq<nat>)
      returns (hids: seq<Hidden>, ghost parts: seq<seq<Hidden>>)
      requires Valid() && Known(ids) && |ids| == |drafts| == |kvLens|
      requires forall i | 0 <= i < |ids| :: 0 < |drafts[i]| <= spec + 1 && kvLens[i] == slots[ids[i]].kvLen
      requires forall i | 0 <= i < |ids| :: slots[ids[i]].ready || kvLens[i] == 0
      modifies this
      ensures Valid() && Untouched(old(slots), slots, ids)
      ensures |parts| == |ids| && hids == Flat(parts)
      ensures forall i | 0 <= i < |ids| ::
                && slots[ids[i]] == SelectedForward(batch, old(slots)[ids[i]], drafts[i])
                && parts[i] == FedSelected(batch, old(slots)[ids[i]], drafts[i]).hiddens
    {
      hide SelectedForward, FedSelected, Flat;
      hids, parts := [], [];
      FlatNil<Hidden>();
      for i := 0 to |ids|
        invariant |parts| == i && hids == Flat(parts)
        invariant Valid() && |slots| == |old(slots)|
        invariant forall s | 0 <= s < |slots| && s !in ids[..i] :: slots[s] == old(slots)[s]
        invariant forall j | 0 <= j < i ::
                    && slots[ids[j]] == SelectedForward(batch, old(slots)[ids[j]], drafts[j])
                    && parts[j] == FedSelected(batch, old(slots)[ids[j]], drafts[j]).hiddens
      {
        var s := ids[i];
        assert s !in ids[..i];
        var rows := FedSelected(batch, slots[s], drafts[i]).hiddens;
        SelectedWellFormed(batch, slots[s], drafts[i], spec);
        slots := slots[s := SelectedForward(batch, slots[s], drafts[i])];
        FlatSnoc(parts, rows);
        hids, parts := hids + rows, parts + [rows];
      }
      assert ids[..|ids|] == ids;
    }

    /** Prefill of a fresh slot through the single-request path. */
    method Prefill(slot: nat, prompt: seq<Token>) returns (next: Token)
      requires Valid() && slot < |slots| && prompt != []
      requires Fresh(slots[slot])
      modifies this
      ensures Valid() && Untouched(old(slots), slots, [slot])
      ensures InPlace(single, slots[slot], prompt) && slots[slot].accepted == 1
      ensures next == Next(single, prompt)
      ensures slots[slot].generation == old(slots)[slot].generation
    {
      hide HiddenOf, Argmax;
      InPlaceFollowsHistory(single, slots[slot], [], prompt, false);
      assert [] + prompt == prompt && prompt[..|prompt|] == prompt;
      var hids := Forward(slot, prompt, false);
      next := Argmax(single.head(hids[|hids| - 1]));
      assert hids[|prompt| - 1] == HiddenOf(single, [] + prompt[..|prompt| - 1 + 1]);
    }

    // -------------------------------------------------------------------------
    // Slot life cycle and the recurrent-state snapshot.
    // -------------------------------------------------------------------------

    method ResetSlot(slot: nat)
      requires Valid() && slot < |slots|
      modifies this
      ensures Valid() && slots == old(slots)[slot := Released(old(slots)[slot])]
    {
      slots := slots[slot := Released(slots[slot])];
    }

    /** Copies row 0 into the slot's one buffer and tags the copy. */
    method SnapshotState(slot: nat) returns (snap: Snapshot)
      requires Valid() && slot < |slots|
      modifies this
      ensures Valid()
      ensures snap == Snapshot(slot, old(slots)[slot].generation + 1)
      ensures slots
           == old(slots)[slot := old(slots)[slot].(generation := snap.generation, saved := old(slots)[slot].rows[0])]
    {
      var g := slots[slot].generation + 1;
      slots := slots[slot := slots[slot].(generation := g, saved := slots[slot].rows[0])];
      snap := Snapshot(slot, g);
    }

    /** Puts a snapshot back into row 0, unless it is another slot's, used, or stale.  Across
        slots there is no such guard: the state comes from wherever the snapshot was taken, as
        that buffer stands now, and the snapshot may seed any number of slots. */
    method RestoreState(slot: nat, snap: Snapshot, allowCrossSlot: bool) returns (r: Result<(), Refusal>)
      requires Valid() && slot < |slots| && (allowCrossSlot ==> snap.slot < |slots|)
      modifies this
      ensures Valid()
      ensures var s := old(slots)[slot];
              && (!allowCrossSlot ==>
                    (r == Ok(()) <==>
                     snap.slot == slot && snap.generation !in s.consumed && snap.generation == s.generation))
              && (!allowCrossSlot ==> (r == Err(OtherSlot) <==> snap.slot != slot))
              && (!allowCrossSlot && r.Ok? ==>
                    slots == old(slots)[slot := s.(rows := s.rows[0 := s.saved],
                                                   consumed := s.consumed + {snap.generation})])
              && (allowCrossSlot ==>
                    r == Ok(()) && slots == old(slots)[slot := s.(rows := s.rows[0 := old(slots)[snap.slot].saved])])
      ensures r.Err? ==> slots == old(slots)
    {
      var s := slots[slot];
      if allowCrossSlot {
        slots := slots[slot := s.(rows := s.rows[0 := slots[snap.slot].saved])];
        return Ok(());
      }
      if snap.slot != slot {
        return Err(OtherSlot);
      }
      if snap.generation in s.consumed {
        return Err(AlreadyRestored);
      }
      if snap.generation != s.generation {
        return Err(Stale);
      }
      slots := slots[slot := s.(rows := s.rows[0 := s.saved], consumed := s.consumed + {snap.generation})];
      return Ok(());
    }
  }

  lemma InPlaceWellFormed(net: Net, s: Slot, toks: seq<Token>, decode: bool, commit: bool, spec: nat)
    requires WellFormed(s, spec) && toks != []
    ensures WellFormed(InPlaceForward(net, s, toks, decode, commit), spec)
  {
  }

  lemma SelectedWellFormed(net: Net, s: Slot, toks: seq<Token>, spec: nat)
    requires WellFormed(s, spec) && |toks| <= spec + 1
    ensures WellFormed(SelectedForward(net, s, toks), spec)
  {
  }
}
