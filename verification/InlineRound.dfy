/**
  The verify round by snapshot, rollback and recompute.

  Every slot's recurrent row is snapshotted, all drafts are verified in one batch, and the
  slots are split: a fully accepted slot only advances its length, any other slot gets its
  row back and forwards its committed tokens again, in one ragged batch with the others.
 */
module InlineRounds {
  import opened AcceptReject
  import opened Backends
  import opened Batches
  import opened Drafting
  import opened Network
  import opened Runners
  import opened Slots
  import opened Speculation

  /** A slot whose drafts were verified in place and judged, with its old row saved. */
  ghost predicate Judged(net: Net, s: Slot, h: seq<Token>, anchor: Token, drafts: seq<Token>, part: seq<Hidden>,
        d: Decision)
  {
    && h != [] && 1 <= |drafts| && AheadInPlace(net, s, h, [anchor] + drafts) && Aligned(net, s, h, anchor)
    && HiddensAlong(net, h, [anchor] + drafts, part)
    && d == Decide(net, h, anchor, drafts)
    && s.saved == Fold(net, h).gdn && s.generation !in s.consumed
  }

  /** A slot whose committed tokens are in place, ready for the draft model to catch up. */
  ghost predicate Settled(net: Net, s: Slot, h: seq<Token>, anchor: Token, drafts: seq<Token>, part: seq<Hidden>,
        d: Decision)
  {
    && h != [] && 1 <= |drafts| && d == Decide(net, h, anchor, drafts)
    && InPlace(net, s, h + RealNew(anchor, d)) && Aligned(net, s, h, anchor)
    && HiddensAlong(net, h, RealNew(anchor, d), part)
  }

  method SnapshotAll(r: Runner, ids: seq<nat>) returns (snaps: map<nat, Snapshot>)
    requires r.Valid() && r.Known(ids)
    modifies r
    ensures r.Valid() && Untouched(old(r.slots), r.slots, ids) && snaps.Keys == set s | s in ids
    ensures forall i | 0 <= i < |ids| ::
              && r.slots[ids[i]] == old(r.slots)[ids[i]].(generation := old(r.slots)[ids[i]].generation + 1,
                                                          saved := old(r.slots)[ids[i]].rows[0])
              && snaps[ids[i]] == Snapshot(ids[i], r.slots[ids[i]].generation)
  {
    assert forall s | 0 <= s < |r.slots| :: r.slots[s].rows != [];
    hide WellFormed;
    snaps := map[];
    for i := 0 to |ids|
      invariant r.Valid() && |r.slots| == |old(r.slots)| && snaps.Keys == set s | s in ids[..i]
      invariant forall s | 0 <= s < |r.slots| && s !in ids[..i] :: r.slots[s] == old(r.slots)[s]
      invariant forall j | 0 <= j < i ::
                  && r.slots[ids[j]] == old(r.slots)[ids[j]].(generation := old(r.slots)[ids[j]].generation + 1,
                                                              saved := old(r.slots)[ids[j]].rows[0])
                  && ids[j] in snaps && snaps[ids[j]] == Snapshot(ids[j], r.slots[ids[j]].generation)
    {
      assert ids[i] !in ids[..i];
      assert ids[..i + 1] == ids[..i] + [ids[i]];
      var snap := r.SnapshotState(ids[i]);
      snaps := snaps[ids[i] := snap];
    }
    assert ids[..|ids|] == ids;
  }

  /** Verify in place and judge each request on its own stretch of the logits. */
  method VerifyAndJudge(r: Runner, ids: seq<nat>, full: seq<seq<Token>>, k: nat)
    returns (hids: seq<Hidden>, ghost parts: seq<seq<Hidden>>, decisions: map<nat, Decision>)
    requires r.Valid() && r.Known(ids) && |full| == |ids| && 1 <= k
    requires forall i | 0 <= i < |ids| :: |full[i]| == k + 1 && r.slots[ids[i]].ready
    modifies r
    ensures r.Valid() && Untouched(old(r.slots), r.slots, ids)
    ensures |parts| == |ids| && hids == Flat(parts) && decisions.Keys == set s | s in ids
    ensures forall i | 0 <= i < |ids| ::
              && r.slots[ids[i]] == InPlaceForward(r.batch, old(r.slots)[ids[i]], full[i], AllSingle(full), false)
              && parts[i] == FedInPlace(r.batch, old(r.slots)[ids[i]], full[i], AllSingle(full)).hiddens
              && Decided(full[i], Heads(r.batch, parts[i]), decisions[ids[i]])
  {
    hide Flat, InPlaceForward, FedInPlace, Block, Heads, Decided;
    var kv := r.KvLengths(ids);
    hids, parts := r.VerifyBatch(ids, full, kv);
    hide WellFormed;
    UniformLength(parts, k + 1);
    decisions := JudgeAll(ids, full, Heads(r.batch, hids), k);
    forall i | 0 <= i < |ids| ensures Decided(full[i], Heads(r.batch, parts[i]), decisions[ids[i]]) {
      UniformSlice(parts, i, k + 1);
      HeadsBlock(r.batch, hids, i, k + 1);
    }
  }

  method JudgeAll(ids: seq<nat>, full: seq<seq<Token>>, rows: seq<Logits>, k: nat)
    returns (decisions: map<nat, Decision>)
    requires Distinct(ids) && |full| == |ids| && |rows| == |ids| * (k + 1)
    requires forall i | 0 <= i < |ids| :: |full[i]| == k + 1
    ensures decisions.Keys == set s | s in ids
    ensures forall i | 0 <= i < |ids| :: Decided(full[i], Block(rows, i, k + 1), decisions[ids[i]])
  {
    hide Block, Decided;
    decisions := map[];
    for i := 0 to |ids|
      invariant decisions.Keys == set s | s in ids[..i]
      invariant forall j | 0 <= j < i ::
                  ids[j] in decisions && Decided(full[j], Block(rows, j, k + 1), decisions[ids[j]])
    {
      BlockFits(rows, i, |ids|, k + 1);
      var d := JudgeRow(full[i], Block(rows, i, k + 1));
      decisions := decisions[ids[i] := d];
      assert ids[..i + 1] == ids[..i] + [ids[i]];
    }
    assert ids[..|ids|] == ids;
  }

  /** A full draft and its own rows are never refused a verdict. */
  method JudgeRow(draft: seq<Token>, rows: seq<Logits>) returns (d: Decision)
    requires 1 <= |draft| == |rows|
    ensures Decided(draft, rows, d)
  {
    var judged := DetermineAcceptReject(draft, rows);
    d := judged.value;
  }

  /** Put the saved rows back and rewind the lengths; no restore is refused. */
  method RestoreGroup(r: Runner, group: seq<nat>, snaps: map<nat, Snapshot>, kvBefore: map<nat, nat>)
    requires r.Valid() && r.Known(group)
    requires forall i | 0 <= i < |group| ::
               && group[i] in snaps && group[i] in kvBefore && kvBefore[group[i]] == r.slots[group[i]].kvLen
               && snaps[group[i]] == Snapshot(group[i], r.slots[group[i]].generation)
               && r.slots[group[i]].generation !in r.slots[group[i]].consumed
    modifies r
    ensures r.Valid() && Untouched(old(r.slots), r.slots, group)
    ensures forall i | 0 <= i < |group| :: r.slots[group[i]] == Restored(old(r.slots)[group[i]])
  {
    for i := 0 to |group|
      invariant r.Valid() && |r.slots| == |old(r.slots)|
      invariant forall s | 0 <= s < |r.slots| && s !in group[..i] :: r.slots[s] == old(r.slots)[s]
      invariant forall j | 0 <= j < i :: r.slots[group[j]] == Restored(old(r.slots)[group[j]])
    {
      var s := group[i];
      assert s !in group[..i];
      var outcome := r.RestoreState(s, snaps[s], false);
      assert outcome.Ok?;
      r.slots := r.slots[s := r.slots[s].(kvLen := kvBefore[s])];
    }
    assert group[..|group|] == group;
  }

  function Restored(s: Slot): Slot {
    if s.rows == [] then s else s.(rows := s.rows[0 := s.saved], consumed := s.consumed + {s.generation})
  }

  lemma RestoredHolds(net: Net, s: Slot, h: seq<Token>, anchor: Token, drafts: seq<Token>, part: seq<Hidden>,
        d: Decision)
    requires Judged(net, s, h, anchor, drafts, part, d)
    ensures InPlace(net, Restored(s), h) && Aligned(net, Restored(s), h, anchor)
  {
    hide HiddenOf, Fold, Decide, DraftKvs;
    UndoAll(net, s, h, [anchor] + drafts);
  }

  lemma RecomputedSettles(net: Net, s: Slot, t: Slot, s': Slot, h: seq<Token>, anchor: Token, drafts: seq<Token>,
        part: seq<Hidden>, d: Decision, decode: bool)
    requires Judged(net, s, h, anchor, drafts, part, d) && t == Restored(s)
    requires t.rows != [] && t.kvLen <= |t.cache|
    requires s' == InPlaceForward(net, t, RealNew(anchor, d), decode, true)
    ensures Settled(net, s', h, anchor, drafts, FedInPlace(net, t, RealNew(anchor, d), decode).hiddens, d)
  {
    hide HiddenOf, Fold, Decide, DraftKvs, Feed;
    RestoredHolds(net, s, h, anchor, drafts, part, d);
    InPlaceFollowsHistory(net, t, h, RealNew(anchor, d), decode);
  }

  lemma AcceptedSettles(net: Net, s: Slot, h: seq<Token>, anchor: Token, drafts: seq<Token>, part: seq<Hidden>,
        d: Decision)
    requires Judged(net, s, h, anchor, drafts, part, d) && d.accepted == |drafts|
    ensures Settled(net, s.(kvLen := s.kvLen + |drafts| + 1), h, anchor, drafts, part, d)
  {
    hide HiddenOf, Fold, Decide, DraftKvs;
    DecisionIsLossless(net, h, anchor, drafts);
    assert RealNew(anchor, d) == [anchor] + drafts;
    KeepAll(net, s, h, [anchor] + drafts);
  }

  lemma JudgeSlot(net: Net, s: Slot, t: Slot, h: seq<Token>, anchor: Token, drafts: seq<Token>, d: Decision,
        decode: bool, spec: nat)
    requires ServingInPlace(net, s, h, anchor) && WellFormed(s, spec) && 1 <= |drafts|
    requires t == s.(generation := s.generation + 1, saved := s.rows[0])
    requires Decided([anchor] + drafts, Heads(net, FedInPlace(net, t, [anchor] + drafts, decode).hiddens), d)
    ensures Judged(net, InPlaceForward(net, t, [anchor] + drafts, decode, false), h, anchor, drafts,
                   FedInPlace(net, t, [anchor] + drafts, decode).hiddens, d)
    ensures InPlaceForward(net, t, [anchor] + drafts, decode, false).kvLen == t.kvLen
    ensures InPlaceForward(net, t, [anchor] + drafts, decode, false).generation == t.generation
  {
    hide Feed, HiddenOf, Fold, Verdict, Heads, Choices, DraftKvs, Predictions, HiddensAlong, AheadInPlace;
    InPlaceFollowsHistory(net, t, h, [anchor] + drafts, decode);
    ChoicesArePredictions(net, h, [anchor] + drafts, FedInPlace(net, t, [anchor] + drafts, decode).hiddens);
  }

  /** The draft model catches up with one group of slots and proposes again. */
  method ProposeGroup(b: Backend, group: seq<nat>, anchors: map<nat, Token>, drafts: map<nat, seq<Token>>,
        decisions: map<nat, Decision>, hidden: seq<Hidden>, ghost parts: seq<seq<Hidden>>, k: nat,
        ghost hs: map<nat, seq<Token>>)
    returns (next: map<nat, seq<Token>>)
    requires b.r.Valid() && b.r.Known(group) && |parts| == |group| && hidden == Flat(parts) && 1 <= k
    requires forall i | 0 <= i < |group| ::
               group[i] in anchors && group[i] in decisions && group[i] in hs && group[i] in drafts
    requires forall i | 0 <= i < |group| ::
               Settled(b.r.batch, b.r.slots[group[i]], hs[group[i]], anchors[group[i]], drafts[group[i]], parts[i],
                       decisions[group[i]])
    modifies b.r
    ensures b.r.Valid() && Untouched(old(b.r.slots), b.r.slots, group) && next.Keys == set s | s in group
    ensures forall i | 0 <= i < |group| ::
              Finished(b.r.batch, b.r.slots[group[i]], hs[group[i]], anchors[group[i]], decisions[group[i]], k,
                       next[group[i]])
  {
    hide Flat, Settled, Proposed, Finished, RealNew, NextAnchor, Shifted, WellFormed;
    var lens, nextAnchors, shifted := NewTokens(group, anchors, decisions);
    forall i | 0 <= i < |group| ensures |parts[i]| == |shifted[i]| {
      SettledShape(b.r.batch, b.r.slots[group[i]], hs[group[i]], anchors[group[i]], drafts[group[i]], parts[i],
                   decisions[group[i]]);
    }
    var starts := b.SyncLengths(group);
    next := b.SyncAndProposeBatch(group, shifted, hidden, parts, starts, k);
    forall i | 0 <= i < |group|
      ensures Finished(b.r.batch, b.r.slots[group[i]], hs[group[i]], anchors[group[i]], decisions[group[i]], k,
                       next[group[i]])
    {
      SettledFinishes(b.r.batch, old(b.r.slots)[group[i]], b.r.slots[group[i]], hs[group[i]], anchors[group[i]],
                      drafts[group[i]], parts[i], decisions[group[i]], k, next[group[i]]);
    }
  }

  lemma SettledShape(net: Net, s: Slot, h: seq<Token>, anchor: Token, drafts: seq<Token>, part: seq<Hidden>,
        d: Decision)
    requires Settled(net, s, h, anchor, drafts, part, d)
    ensures |part| == d.accepted + 1
  {
  }

  ghost predicate Finished(net: Net, s: Slot, h: seq<Token>, anchor: Token, d: Decision, k: nat, next: seq<Token>) {
    && h != [] && 1 <= k
    && ServingInPlace(net, s, h + RealNew(anchor, d), NextAnchor(d))
    && next == Drafts(net, h + RealNew(anchor, d), NextAnchor(d), k)
  }

  lemma SettledFinishes(net: Net, s: Slot, s': Slot, h: seq<Token>, anchor: Token, drafts: seq<Token>,
        part: seq<Hidden>, d: Decision, k: nat, next: seq<Token>)
    requires Settled(net, s, h, anchor, drafts, part, d)
    requires Proposed(net, s, s', Shifted(RealNew(anchor, d), NextAnchor(d)), part, k, next)
    ensures Finished(net, s', h, anchor, d, k, next)
  {
    hide HiddenOf, Fold, Decide, Drafts, DraftKvs, Propose;
    ProposedFollowsHistory(net, s, s', h, anchor, RealNew(anchor, d), NextAnchor(d), part, k, next);
  }

  /** The slots accepted whole, or the others, in the batch's order. */
  function Group(ids: seq<nat>, decisions: map<nat, Decision>, k: nat, whole: bool): (g: seq<nat>)
    requires forall i | 0 <= i < |ids| :: ids[i] in decisions
  {
    if ids == [] then []
    else
      var s := ids[|ids| - 1];
      Group(ids[..|ids| - 1], decisions, k, whole) + if (decisions[s].accepted == k) == whole then [s] else []
  }

  lemma GroupSnoc(ids: seq<nat>, decisions: map<nat, Decision>, k: nat, whole: bool, i: nat)
    requires i < |ids| && forall i | 0 <= i < |ids| :: ids[i] in decisions
    ensures Group(ids[..i + 1], decisions, k, whole)
         == Group(ids[..i], decisions, k, whole) + if (decisions[ids[i]].accepted == k) == whole then [ids[i]] else []
  {
    assert ids[..i + 1][..i] == ids[..i];
  }

  /** A group holds the slots it should, each once. */
  lemma {:induction false} GroupHolds(ids: seq<nat>, decisions: map<nat, Decision>, k: nat, whole: bool)
    requires Distinct(ids) && forall i | 0 <= i < |ids| :: ids[i] in decisions
    ensures Distinct(Group(ids, decisions, k, whole))
    ensures forall s :: s in Group(ids, decisions, k, whole) <==>
                        s in ids && (decisions[s].accepted == k) == whole
  {
    if ids != [] {
      var n := |ids| - 1;
      GroupHolds(ids[..n], decisions, k, whole);
      assert ids == ids[..n] + [ids[n]] && ids[n] !in ids[..n];
    }
  }

  /** Which requests were accepted whole, and which must be recomputed; both keep the
      batch's order. */
  method Split(ids: seq<nat>, decisions: map<nat, Decision>, k: nat) returns (whole: seq<nat>, rest: seq<nat>)
    requires Distinct(ids) && forall i | 0 <= i < |ids| :: ids[i] in decisions
    ensures whole == Group(ids, decisions, k, true) && rest == Group(ids, decisions, k, false)
    ensures Distinct(whole) && Distinct(rest)
    ensures forall j | 0 <= j < |whole| :: whole[j] in ids && decisions[whole[j]].accepted == k
    ensures forall j | 0 <= j < |rest| :: rest[j] in ids && decisions[rest[j]].accepted != k
    ensures forall i | 0 <= i < |ids| :: if decisions[ids[i]].accepted == k then ids[i] in whole else ids[i] in rest
  {
    hide Group;
    whole, rest := [], [];
    GroupNil(decisions, k);
    for i := 0 to |ids|
      invariant whole == Group(ids[..i], decisions, k, true) && rest == Group(ids[..i], decisions, k, false)
    {
      GroupSnoc(ids, decisions, k, true, i);
      GroupSnoc(ids, decisions, k, false, i);
      if decisions[ids[i]].accepted == k {
        whole := whole + [ids[i]];
      } else {
        rest := rest + [ids[i]];
      }
    }
    assert ids[..|ids|] == ids;
    GroupHolds(ids, decisions, k, true);
    GroupHolds(ids, decisions, k, false);
  }

  lemma GroupNil(decisions: map<nat, Decision>, k: nat)
    ensures Group([], decisions, k, true) == [] && Group([], decisions, k, false) == []
  {
  }

  method IndexOf(ids: seq<nat>, s: nat) returns (i: nat)
    requires s in ids
    ensures i < |ids| && ids[i] == s
  {
    i := 0;
    while ids[i] != s
      invariant i < |ids| && s !in ids[..i]
      decreases |ids| - i
    {
      assert ids == ids[..i] + ids[i..] && ids[i..] == [ids[i]] + ids[i + 1..];
      i := i + 1;
    }
  }

  /** The full stretches of rows of a group of requests. */
  method Gather(ids: seq<nat>, hids: seq<Hidden>, ghost parts: seq<seq<Hidden>>, group: seq<nat>, w: nat,
        ghost partOf: map<nat, seq<Hidden>>)
    returns (hidden: seq<Hidden>, ghost gparts: seq<seq<Hidden>>)
    requires |parts| == |ids| && hids == Flat(parts) && forall i | 0 <= i < |ids| :: |parts[i]| == w
    requires forall i | 0 <= i < |ids| :: ids[i] in partOf && partOf[ids[i]] == parts[i]
    requires forall j | 0 <= j < |group| :: group[j] in ids
    ensures |gparts| == |group| && hidden == Flat(gparts)
    ensures forall j | 0 <= j < |group| :: group[j] in partOf && gparts[j] == partOf[group[j]]
  {
    hide Flat, Block;
    FlatNil<Hidden>();
    hidden, gparts := [], [];
    for j := 0 to |group|
      invariant |gparts| == j && hidden == Flat(gparts)
      invariant forall l | 0 <= l < j :: group[l] in partOf && gparts[l] == partOf[group[l]]
    {
      var i := IndexOf(ids, group[j]);
      UniformSlice(parts, i, w);
      var rows := Block(hids, i, w);
      FlatSnoc(gparts, rows);
      hidden, gparts := hidden + rows, gparts + [rows];
    }
  }

  /** A fully accepted slot keeps everything verify wrote. */
  method KeepGroup(r: Runner, group: seq<nat>, kvBefore: map<nat, nat>, k: nat)
    requires r.Valid() && r.Known(group)
    requires forall j | 0 <= j < |group| ::
               && group[j] in kvBefore && kvBefore[group[j]] == r.slots[group[j]].kvLen
               && r.slots[group[j]].kvLen + k + 1 <= |r.slots[group[j]].cache|
    modifies r
    ensures r.Valid() && Untouched(old(r.slots), r.slots, group)
    ensures forall j | 0 <= j < |group| ::
              r.slots[group[j]] == old(r.slots)[group[j]].(kvLen := old(r.slots)[group[j]].kvLen + k + 1)
  {
    for j := 0 to |group|
      invariant r.Valid() && |r.slots| == |old(r.slots)|
      invariant forall s | 0 <= s < |r.slots| && s !in group[..j] :: r.slots[s] == old(r.slots)[s]
      invariant forall l | 0 <= l < j ::
                  r.slots[group[l]] == old(r.slots)[group[l]].(kvLen := old(r.slots)[group[l]].kvLen + k + 1)
    {
      var s := group[j];
      assert s !in group[..j];
      r.slots := r.slots[s := r.slots[s].(kvLen := kvBefore[s] + k + 1)];
    }
    assert group[..|group|] == group;
  }

  /** Settle the fully accepted group: lengths advance, and its rows of the verify forward
      are the draft model's input as they are. */
  method KeepWhole(r: Runner, ids: seq<nat>, hids: seq<Hidden>, ghost parts: seq<seq<Hidden>>, group: seq<nat>,
        kvBefore: map<nat, nat>, k: nat, anchors: map<nat, Token>, drafts: map<nat, seq<Token>>,
        decisions: map<nat, Decision>, ghost partOf: map<nat, seq<Hidden>>, ghost hs: map<nat, seq<Token>>)
    returns (hidden: seq<Hidden>, ghost gparts: seq<seq<Hidden>>)
    requires r.Valid() && r.Known(group) && |parts| == |ids| && hids == Flat(parts)
    requires forall i | 0 <= i < |ids| ::
               && ids[i] in anchors && ids[i] in drafts && ids[i] in decisions && ids[i] in hs && ids[i] in kvBefore
               && ids[i] < |r.slots|
               && ids[i] in partOf && partOf[ids[i]] == parts[i] && |drafts[ids[i]]| == k
               && kvBefore[ids[i]] == r.slots[ids[i]].kvLen
    requires forall i | 0 <= i < |ids| ::
               Judged(r.batch, r.slots[ids[i]], hs[ids[i]], anchors[ids[i]], drafts[ids[i]], parts[i],
                      decisions[ids[i]])
    requires forall j | 0 <= j < |group| :: group[j] in ids && decisions[group[j]].accepted == k
    modifies r
    ensures r.Valid() && Untouched(old(r.slots), r.slots, group) && |gparts| == |group| && hidden == Flat(gparts)
    ensures forall j | 0 <= j < |group| ::
              Settled(r.batch, r.slots[group[j]], hs[group[j]], anchors[group[j]], drafts[group[j]], gparts[j],
                      decisions[group[j]])
  {
    hide Flat, Judged, Settled;
    forall i | 0 <= i < |ids| ensures |parts[i]| == k + 1 && r.slots[ids[i]].kvLen + k + 1 <= |r.slots[ids[i]].cache| {
      JudgedIsReady(r.batch, r.slots[ids[i]], hs[ids[i]], anchors[ids[i]], drafts[ids[i]], parts[i], decisions[ids[i]]);
    }
    KeepGroup(r, group, kvBefore, k);
    hidden, gparts := Gather(ids, hids, parts, group, k + 1, partOf);
    forall j | 0 <= j < |group|
      ensures Settled(r.batch, r.slots[group[j]], hs[group[j]], anchors[group[j]], drafts[group[j]], gparts[j],
                      decisions[group[j]])
    {
      AcceptedSettles(r.batch, old(r.slots)[group[j]], hs[group[j]], anchors[group[j]], drafts[group[j]], gparts[j],
                      decisions[group[j]]);
    }
  }

  /** Roll a group back and forward its committed tokens again, each slot its own number. */
  method RecomputeGroup(r: Runner, group: seq<nat>, snaps: map<nat, Snapshot>, kvBefore: map<nat, nat>,
        anchors: map<nat, Token>, drafts: map<nat, seq<Token>>, decisions: map<nat, Decision>,
        ghost partOf: map<nat, seq<Hidden>>, ghost hs: map<nat, seq<Token>>)
    returns (hidden: seq<Hidden>, ghost gparts: seq<seq<Hidden>>)
    requires r.Valid() && r.Known(group)
    requires forall j | 0 <= j < |group| ::
               && group[j] in anchors && group[j] in drafts && group[j] in decisions && group[j] in partOf
               && group[j] in hs
               && group[j] in snaps && group[j] in kvBefore && kvBefore[group[j]] == r.slots[group[j]].kvLen
               && snaps[group[j]] == Snapshot(group[j], r.slots[group[j]].generation)
    requires forall j | 0 <= j < |group| ::
               Judged(r.batch, r.slots[group[j]], hs[group[j]], anchors[group[j]], drafts[group[j]], partOf[group[j]],
                      decisions[group[j]])
    modifies r
    ensures r.Valid() && Untouched(old(r.slots), r.slots, group) && |gparts| == |group| && hidden == Flat(gparts)
    ensures forall j | 0 <= j < |group| ::
              Settled(r.batch, r.slots[group[j]], hs[group[j]], anchors[group[j]], drafts[group[j]], gparts[j],
                      decisions[group[j]])
  {
    hide Judged, Settled, Restored, InPlaceForward, FedInPlace, Flat, RealNew;
    forall j | 0 <= j < |group|
      ensures r.slots[group[j]].generation !in r.slots[group[j]].consumed && r.slots[group[j]].ready
    {
      JudgedIsReady(r.batch, r.slots[group[j]], hs[group[j]], anchors[group[j]], drafts[group[j]], partOf[group[j]],
                    decisions[group[j]]);
    }
    RestoreGroup(r, group, snaps, kvBefore);
    label restored:
    var toks := CommittedTokens(group, anchors, decisions);
    var kv := r.KvLengths(group);
    forall j | 0 <= j < |group| ensures r.slots[group[j]].ready {
      RestoredIsReady(old(r.slots)[group[j]]);
    }
    hidden, gparts := r.ForwardBatch(group, toks, kv, true);
    forall j | 0 <= j < |group|
      ensures Settled(r.batch, r.slots[group[j]], hs[group[j]], anchors[group[j]], drafts[group[j]], gparts[j],
                      decisions[group[j]])
    {
      RecomputedSettles(r.batch, old(r.slots)[group[j]], old@restored(r.slots)[group[j]], r.slots[group[j]],
                        hs[group[j]],
                        anchors[group[j]], drafts[group[j]], partOf[group[j]], decisions[group[j]], AllSingle(toks));
    }
  }

  method CommittedTokens(group: seq<nat>, anchors: map<nat, Token>, decisions: map<nat, Decision>)
    returns (toks: seq<seq<Token>>)
    requires forall j | 0 <= j < |group| :: group[j] in anchors && group[j] in decisions
    ensures |toks| == |group|
    ensures forall j | 0 <= j < |group| :: toks[j] == RealNew(anchors[group[j]], decisions[group[j]]) && toks[j] != []
  {
    toks := [];
    for j := 0 to |group|
      invariant |toks| == j
      invariant forall l | 0 <= l < j :: toks[l] == RealNew(anchors[group[l]], decisions[group[l]]) && toks[l] != []
    {
      toks := toks + [RealNew(anchors[group[j]], decisions[group[j]])];
    }
  }

  lemma JudgedIsReady(net: Net, s: Slot, h: seq<Token>, anchor: Token, drafts: seq<Token>, part: seq<Hidden>,
        d: Decision)
    requires Judged(net, s, h, anchor, drafts, part, d)
    ensures s.generation !in s.consumed && s.ready && |part| == |drafts| + 1
    ensures s.kvLen + |drafts| + 1 <= |s.cache|
  {
  }

  lemma RestoredIsReady(s: Slot)
    ensures Restored(s).ready == s.ready && Restored(s).kvLen == s.kvLen
  {
  }

  /** Snapshot every slot, verify all drafts in one batch and judge each slot. */
  method SnapshotVerifyJudge(r: Runner, ids: seq<nat>, anchors: map<nat, Token>, drafts: map<nat, seq<Token>>,
        ghost hs: map<nat, seq<Token>>)
    returns (kvBefore: map<nat, nat>, snaps: map<nat, Snapshot>, hids: seq<Hidden>, ghost parts: seq<seq<Hidden>>,
             decisions: map<nat, Decision>)
    requires r.Valid() && r.Known(ids) && ids != []
    requires forall i | 0 <= i < |ids| :: ids[i] in anchors && ids[i] in drafts && ids[i] in hs
    requires 1 <= |drafts[ids[0]]| && forall i | 0 <= i < |ids| :: |drafts[ids[i]]| == |drafts[ids[0]]|
    requires forall i | 0 <= i < |ids| :: ServingInPlace(r.batch, r.slots[ids[i]], hs[ids[i]], anchors[ids[i]])
    modifies r
    ensures r.Valid() && Untouched(old(r.slots), r.slots, ids)
    ensures |parts| == |ids| && hids == Flat(parts) && decisions.Keys == set s | s in ids
    ensures forall i | 0 <= i < |ids| ::
              && ids[i] in kvBefore && kvBefore[ids[i]] == r.slots[ids[i]].kvLen
              && ids[i] in snaps && snaps[ids[i]] == Snapshot(ids[i], r.slots[ids[i]].generation)
    ensures forall i | 0 <= i < |ids| ::
              Judged(r.batch, r.slots[ids[i]], hs[ids[i]], anchors[ids[i]], drafts[ids[i]], parts[i], decisions[ids[i]])
  {
    hide Flat, Judged, InPlaceForward, FedInPlace, Decided, ServingInPlace, AllSingle, Heads, WellFormed;
    var n, k := |ids|, |drafts[ids[0]]|;
    kvBefore, snaps := TakeSnapshots(r, ids);
    label taken:
    var full := seq(n, i requires 0 <= i < n && ids[i] in anchors && ids[i] in drafts =>
                      [anchors[ids[i]]] + drafts[ids[i]]);
    forall i | 0 <= i < n ensures r.slots[ids[i]].ready {
      ServingInPlaceIsReady(r.batch, old(r.slots)[ids[i]], hs[ids[i]], anchors[ids[i]]);
    }
    hids, parts, decisions := VerifyAndJudge(r, ids, full, k);
    forall i | 0 <= i < n
      ensures Judged(r.batch, r.slots[ids[i]], hs[ids[i]], anchors[ids[i]], drafts[ids[i]], parts[i], decisions[ids[i]])
      ensures kvBefore[ids[i]] == r.slots[ids[i]].kvLen && snaps[ids[i]].generation == r.slots[ids[i]].generation
    {
      JudgeSlot(r.batch, old(r.slots)[ids[i]], old@taken(r.slots)[ids[i]], hs[ids[i]], anchors[ids[i]], drafts[ids[i]],
                decisions[ids[i]], AllSingle(full), r.spec);
    }
  }

  /** Lengths and recurrent rows as they are before anything is verified. */
  method TakeSnapshots(r: Runner, ids: seq<nat>) returns (kvBefore: map<nat, nat>, snaps: map<nat, Snapshot>)
    requires r.Valid() && r.Known(ids)
    modifies r
    ensures r.Valid() && Untouched(old(r.slots), r.slots, ids)
    ensures forall i | 0 <= i < |ids| ::
              && r.slots[ids[i]] == old(r.slots)[ids[i]].(generation := old(r.slots)[ids[i]].generation + 1,
                                                          saved := old(r.slots)[ids[i]].rows[0])
              && ids[i] in kvBefore && kvBefore[ids[i]] == r.slots[ids[i]].kvLen
              && ids[i] in snaps && snaps[ids[i]] == Snapshot(ids[i], r.slots[ids[i]].generation)
  {
    var lens := r.KvLengths(ids);
    kvBefore := ByKey(ids, lens);
    snaps := SnapshotAll(r, ids);
  }

  lemma ServingInPlaceIsReady(net: Net, s: Slot, h: seq<Token>, anchor: Token)
    requires ServingInPlace(net, s, h, anchor)
    ensures s.ready
  {
  }

  /** One round over any distinct slots, with any mix of full accepts and rejects: the same
      function of each slot's own history as the production round. */
  method RunOneRoundInline(b: Backend, ids: seq<nat>, anchors: map<nat, Token>, drafts: map<nat, seq<Token>>,
        ghost hs: map<nat, seq<Token>>)
    returns (rounds: map<nat, Round>)
    requires b.r.Valid() && b.r.Known(ids) && ids != []
    requires forall i | 0 <= i < |ids| :: ids[i] in anchors && ids[i] in drafts && ids[i] in hs
    requires 1 <= |drafts[ids[0]]| && forall i | 0 <= i < |ids| :: |drafts[ids[i]]| == |drafts[ids[0]]|
    requires forall i | 0 <= i < |ids| :: ServingInPlace(b.r.batch, b.r.slots[ids[i]], hs[ids[i]], anchors[ids[i]])
    modifies b.r
    ensures b.r.Valid() && Untouched(old(b.r.slots), b.r.slots, ids) && rounds.Keys == set s | s in ids
    ensures forall i | 0 <= i < |ids| ::
              && Advanced(b.r.batch, hs[ids[i]], anchors[ids[i]], drafts[ids[i]], rounds[ids[i]])
              && ServingInPlace(b.r.batch, b.r.slots[ids[i]], Grown(hs[ids[i]], anchors[ids[i]], rounds[ids[i]]),
                                rounds[ids[i]].nextAnchor)
  {
    hide Flat, Settled, Finished, ServingInPlace, Advanced, Grown, NextAnchor, Runner.Valid, Decide;
    var k := |drafts[ids[0]]|;
    var decisions, whole, rest, hiddenWhole, hiddenRest;
    ghost var wholeParts, restParts;
    decisions, whole, rest, hiddenWhole, wholeParts, hiddenRest, restParts :=
      VerifyAndSettle(b.r, ids, anchors, drafts, hs);
    rounds := ProposeBoth(b, ids, whole, rest, anchors, drafts, decisions, hiddenWhole, wholeParts, hiddenRest,
                          restParts, k, hs);
    forall i | 0 <= i < |ids|
      ensures Advanced(b.r.batch, hs[ids[i]], anchors[ids[i]], drafts[ids[i]], rounds[ids[i]])
      ensures ServingInPlace(b.r.batch, b.r.slots[ids[i]], Grown(hs[ids[i]], anchors[ids[i]], rounds[ids[i]]),
                             rounds[ids[i]].nextAnchor)
    {
      FinishedAdvances(b.r.batch, b.r.slots[ids[i]], hs[ids[i]], anchors[ids[i]], drafts[ids[i]], rounds[ids[i]]);
    }
  }

  /** The target's half of the round: judge every slot, then settle the two groups. */
  method VerifyAndSettle(r: Runner, ids: seq<nat>, anchors: map<nat, Token>, drafts: map<nat, seq<Token>>,
        ghost hs: map<nat, seq<Token>>)
    returns (decisions: map<nat, Decision>, whole: seq<nat>, rest: seq<nat>, hiddenWhole: seq<Hidden>,
             ghost wholeParts: seq<seq<Hidden>>,
             hiddenRest: seq<Hidden>, ghost restParts: seq<seq<Hidden>>)
    requires r.Valid() && r.Known(ids) && ids != []
    requires forall i | 0 <= i < |ids| :: ids[i] in anchors && ids[i] in drafts && ids[i] in hs
    requires 1 <= |drafts[ids[0]]| && forall i | 0 <= i < |ids| :: |drafts[ids[i]]| == |drafts[ids[0]]|
    requires forall i | 0 <= i < |ids| :: ServingInPlace(r.batch, r.slots[ids[i]], hs[ids[i]], anchors[ids[i]])
    modifies r
    ensures r.Valid() && Untouched(old(r.slots), r.slots, ids) && Distinct(whole) && Distinct(rest)
    ensures |wholeParts| == |whole| && hiddenWhole == Flat(wholeParts) && |restParts| == |rest|
    ensures hiddenRest == Flat(restParts)
    ensures forall i | 0 <= i < |ids| ::
              && ids[i] in decisions && hs[ids[i]] != []
              && decisions[ids[i]] == Decide(r.batch, hs[ids[i]], anchors[ids[i]], drafts[ids[i]])
              && if decisions[ids[i]].accepted == |drafts[ids[0]]| then ids[i] in whole else ids[i] in rest
    ensures forall j | 0 <= j < |whole| ::
              && whole[j] in ids && decisions[whole[j]].accepted == |drafts[ids[0]]|
              && Settled(r.batch, r.slots[whole[j]], hs[whole[j]], anchors[whole[j]], drafts[whole[j]], wholeParts[j],
                         decisions[whole[j]])
    ensures forall j | 0 <= j < |rest| ::
              && rest[j] in ids && decisions[rest[j]].accepted != |drafts[ids[0]]|
              && Settled(r.batch, r.slots[rest[j]], hs[rest[j]], anchors[rest[j]], drafts[rest[j]], restParts[j],
                         decisions[rest[j]])
  {
    hide Flat, Judged, Settled, ServingInPlace, Runner.Valid, Decide, Group, ByKeyGhost;
    var k := |drafts[ids[0]]|;
    var kvBefore, snaps, hids;
    ghost var parts;
    kvBefore, snaps, hids, parts, decisions := SnapshotVerifyJudge(r, ids, anchors, drafts, hs);
    ghost var partOf := ByKeyGhost(ids, parts);
    forall i | 0 <= i < |ids|
      ensures hs[ids[i]] != [] && decisions[ids[i]] == Decide(r.batch, hs[ids[i]], anchors[ids[i]], drafts[ids[i]])
    {
      JudgedDecides(r.batch, r.slots[ids[i]], hs[ids[i]], anchors[ids[i]], drafts[ids[i]], parts[i], decisions[ids[i]]);
    }
    whole, rest := Split(ids, decisions, k);
    forall j | 0 <= j < |rest|
      ensures rest[j] in partOf && rest[j] !in whole
      ensures Judged(r.batch, r.slots[rest[j]], hs[rest[j]], anchors[rest[j]], drafts[rest[j]], partOf[rest[j]],
                     decisions[rest[j]])
    {
      var i :| 0 <= i < |ids| && ids[i] == rest[j];
    }
    forall j | 0 <= j < |whole| ensures whole[j] !in rest {}
    label split:
    hiddenWhole, wholeParts := KeepWhole(r, ids, hids, parts, whole, kvBefore, k, anchors, drafts, decisions, partOf,
                                         hs);
    assert forall j | 0 <= j < |rest| :: r.slots[rest[j]] == old@split(r.slots)[rest[j]];
    hiddenRest, restParts := RecomputeGroup(r, rest, snaps, kvBefore, anchors, drafts, decisions, partOf, hs);
  }

  lemma JudgedDecides(net: Net, s: Slot, h: seq<Token>, anchor: Token, drafts: seq<Token>, part: seq<Hidden>,
        d: Decision)
    requires Judged(net, s, h, anchor, drafts, part, d)
    ensures h != [] && d == Decide(net, h, anchor, drafts)
  {
  }

  /** The draft model catches up group by group; each slot's proposal ends up in its own
      report. */
  method ProposeBoth(b: Backend, ids: seq<nat>, whole: seq<nat>, rest: seq<nat>, anchors: map<nat, Token>,
        drafts: map<nat, seq<Token>>, decisions: map<nat, Decision>, hiddenWhole: seq<Hidden>,
        ghost wholeParts: seq<seq<Hidden>>, hiddenRest: seq<Hidden>, ghost restParts: seq<seq<Hidden>>, k: nat,
        ghost hs: map<nat, seq<Token>>)
    returns (rounds: map<nat, Round>)
    requires b.r.Valid() && b.r.Known(ids) && Distinct(whole) && Distinct(rest) && 1 <= k
    requires |wholeParts| == |whole| && hiddenWhole == Flat(wholeParts) && |restParts| == |rest|
    requires hiddenRest == Flat(restParts)
    requires forall s | s in ids :: s in anchors && s in drafts && s in decisions && s in hs && s < |b.r.slots|
    requires forall j | 0 <= j < |whole| :: whole[j] in ids && decisions[whole[j]].accepted == k
    requires forall j | 0 <= j < |rest| :: rest[j] in ids && decisions[rest[j]].accepted != k
    requires forall i | 0 <= i < |ids| :: if decisions[ids[i]].accepted == k then ids[i] in whole else ids[i] in rest
    requires forall j | 0 <= j < |whole| ::
               Settled(b.r.batch, b.r.slots[whole[j]], hs[whole[j]], anchors[whole[j]], drafts[whole[j]], wholeParts[j],
                       decisions[whole[j]])
    requires forall j | 0 <= j < |rest| ::
               Settled(b.r.batch, b.r.slots[rest[j]], hs[rest[j]], anchors[rest[j]], drafts[rest[j]], restParts[j],
                       decisions[rest[j]])
    modifies b.r
    ensures b.r.Valid() && Untouched(old(b.r.slots), b.r.slots, ids) && rounds.Keys == set s | s in ids
    ensures forall i | 0 <= i < |ids| ::
              && ids[i] in rounds && rounds[ids[i]].decision == decisions[ids[i]]
              && rounds[ids[i]].nextAnchor == NextAnchor(decisions[ids[i]])
              && Finished(b.r.batch, b.r.slots[ids[i]], hs[ids[i]], anchors[ids[i]], decisions[ids[i]], k,
                          rounds[ids[i]].nextDrafts)
  {
    hide Flat, Settled, Finished, NextAnchor, WellFormed;
    var nextWhole := ProposeGroup(b, whole, anchors, drafts, decisions, hiddenWhole, wholeParts, k, hs);
    var nextRest := ProposeGroup(b, rest, anchors, drafts, decisions, hiddenRest, restParts, k, hs);
    rounds := Assemble(ids, decisions, nextWhole, nextRest, k);
  }

  lemma FinishedAdvances(net: Net, s': Slot, h: seq<Token>, anchor: Token, drafts: seq<Token>, out: Round)
    requires h != [] && 1 <= |drafts| && out.decision == Decide(net, h, anchor, drafts)
    requires Finished(net, s', h, anchor, out.decision, |drafts|, out.nextDrafts)
    requires out.nextAnchor == NextAnchor(out.decision)
    ensures Advanced(net, h, anchor, drafts, out)
    ensures ServingInPlace(net, s', Grown(h, anchor, out), out.nextAnchor)
  {
    hide Decide, Drafts, DraftKvs, Fold, HiddenOf;
  }

  /** Put the two groups' proposals back together in one report per slot. */
  method Assemble(ids: seq<nat>, decisions: map<nat, Decision>, a: map<nat, seq<Token>>, b: map<nat, seq<Token>>,
        k: nat)
    returns (rounds: map<nat, Round>)
    requires Distinct(ids) && forall i | 0 <= i < |ids| ::
               ids[i] in decisions && if decisions[ids[i]].accepted == k then ids[i] in a else ids[i] in b
    ensures rounds.Keys == set s | s in ids
    ensures forall i | 0 <= i < |ids| ::
              rounds[ids[i]] == Round(decisions[ids[i]], NextAnchor(decisions[ids[i]]),
                                      if decisions[ids[i]].accepted == k then a[ids[i]] else b[ids[i]])
  {
    rounds := map[];
    for i := 0 to |ids|
      invariant rounds.Keys == set s | s in ids[..i]
      invariant forall j | 0 <= j < i ::
                  ids[j] in rounds &&
                  rounds[ids[j]] == Round(decisions[ids[j]], NextAnchor(decisions[ids[j]]),
                                          if decisions[ids[j]].accepted == k then a[ids[j]] else b[ids[j]])
    {
      var s := ids[i];
      var d := decisions[s];
      rounds := rounds[s := Round(d, NextAnchor(d), if d.accepted == k then a[s] else b[s])];
      assert ids[..i + 1] == ids[..i] + [s];
    }
    assert ids[..|ids|] == ids;
  }
}
