/**
  What the runner keeps for one slot, and what a forward does to it.

  The attention cache is addressed by position: entries at or past `kvLen` may be stale
  and are simply never read.  The recurrent state is not: row 0 is the row an ordinary
  forward updates in place, rows 1.. hold one candidate state per further verify position,
  and `accepted` says which row the next speculative verify resumes from.
 */
module Slots {
  import opened Drafting
  import opened Network

  datatype Slot = Slot(
    cache: seq<Kv>, kvLen: nat,
    rows: seq<Gdn>, accepted: nat, ready: bool,
    draft: seq<Kv>, syncLen: nat,
    generation: nat, saved: Gdn, consumed: set<nat>)

  /** Tag of a snapshot; the state itself sits in the slot's own fixed buffer. */
  datatype Snapshot = Snapshot(slot: nat, generation: nat)

  datatype Refusal = OtherSlot | AlreadyRestored | Stale

  ghost predicate WellFormed(s: Slot, spec: nat) {
    && s.kvLen <= |s.cache| && s.syncLen <= |s.draft|
    && |s.rows| == spec + 1 && 1 <= s.accepted <= spec + 1
    && forall g | g in s.consumed :: g <= s.generation
  }

  // ---------------------------------------------------------------------------
  // Operations on one slot.
  // ---------------------------------------------------------------------------

  /** The state an in-place forward resumes from.  The single-token decode path reads row 0
      whether or not the slot was ever written; the chunked path starts a slot that is not
      ready from the blank state. */
  function StartState(net: Net, s: Slot, decode: bool): Gdn
    requires s.rows != []
  {
    if decode || s.ready then s.rows[0] else BLANK
  }

  function FedInPlace(net: Net, s: Slot, toks: seq<Token>, decode: bool): (f: Fed)
    requires s.rows != [] && s.kvLen <= |s.cache|
    ensures |f.rows| == |f.kvs| == |f.hiddens| == |toks|
  {
    Feed(net, StartState(net, s, decode), s.cache[..s.kvLen], toks)
  }

  /** An ordinary forward: entries written from `kvLen` on, row 0 overwritten.  Whether the
      length advances is the caller's choice; the writes happen regardless. */
  function InPlaceForward(net: Net, s: Slot, toks: seq<Token>, decode: bool, commit: bool): (t: Slot)
    requires s.rows != [] && s.kvLen <= |s.cache| && toks != []
  {
    var f := FedInPlace(net, s, toks, decode);
    s.(cache := Overlay(s.cache, s.kvLen, f.kvs),
       rows := s.rows[0 := f.rows[|toks| - 1]],
       ready := true,
       kvLen := s.kvLen + if commit then |toks| else 0)
  }

  function FedSelected(net: Net, s: Slot, toks: seq<Token>): (f: Fed)
    requires 1 <= s.accepted <= |s.rows| && s.kvLen <= |s.cache|
    ensures |f.rows| == |f.kvs| == |f.hiddens| == |toks|
  {
    Feed(net, s.rows[s.accepted - 1], s.cache[..s.kvLen], toks)
  }

  /** A speculative verify: it resumes from the selected row and leaves the state after
      every candidate position in that position's own row. */
  function SelectedForward(net: Net, s: Slot, toks: seq<Token>): (t: Slot)
    requires 1 <= s.accepted <= |s.rows| && s.kvLen <= |s.cache| && |toks| <= |s.rows|
  {
    var f := FedSelected(net, s, toks);
    s.(cache := Overlay(s.cache, s.kvLen, f.kvs), rows := Overlay(s.rows, 0, f.rows), ready := true)
  }

  /** Releasing a slot clears its bookkeeping and none of its tensors. */
  function Released(s: Slot): Slot {
    s.(kvLen := 0, ready := false, syncLen := 0, accepted := 1)
  }

  // ---------------------------------------------------------------------------
  // What it means for a slot to hold a history.
  // ---------------------------------------------------------------------------

  ghost predicate CacheHolds(net: Net, s: Slot, h: seq<Token>) {
    s.kvLen == |h| <= |s.cache| && s.cache[..|h|] == Fold(net, h).kvs
  }

  /** Row 0 is the live state: what prefill, decode, restore and recompute maintain. */
  ghost predicate InPlace(net: Net, s: Slot, h: seq<Token>) {
    CacheHolds(net, s, h) && s.ready && s.rows != [] && s.rows[0] == Fold(net, h).gdn
  }

  /** The selected row is the live state: what speculative verify maintains. */
  ghost predicate Selected(net: Net, s: Slot, h: seq<Token>) {
    && CacheHolds(net, s, h) && s.ready
    && 1 <= s.accepted <= |s.rows| && s.rows[s.accepted - 1] == Fold(net, h).gdn
  }

  /** The draft cache is right below `syncLen`, which is the slot's own length. */
  ghost predicate Aligned(net: Net, s: Slot, h: seq<Token>, anchor: Token) {
    s.syncLen == |h| <= |s.draft| && s.draft[..|h|] == DraftKvs(net, h, anchor)
  }

  /** A released or never-used slot. */
  predicate Fresh(s: Slot) {
    s.kvLen == 0 && s.syncLen == 0 && s.accepted == 1 && !s.ready
  }

  /** `toks` were written after history `h` but nothing was committed yet, by an in-place
      forward. */
  ghost predicate AheadInPlace(net: Net, s: Slot, h: seq<Token>, toks: seq<Token>) {
    && s.kvLen == |h| && |h + toks| <= |s.cache| && s.cache[..|h + toks|] == Fold(net, h + toks).kvs
    && s.ready && s.rows != [] && s.rows[0] == Fold(net, h + toks).gdn
  }

  /** The same by a speculative verify: every candidate's state has its own row. */
  ghost predicate AheadSelected(net: Net, s: Slot, h: seq<Token>, toks: seq<Token>) {
    && s.kvLen == |h| && |h + toks| <= |s.cache| && s.cache[..|h + toks|] == Fold(net, h + toks).kvs
    && s.ready && |toks| <= |s.rows|
    && forall j | 0 <= j < |toks| :: s.rows[j] == Fold(net, h + toks[..j + 1]).gdn
  }

  // ---------------------------------------------------------------------------
  // Forwards follow the history.
  // ---------------------------------------------------------------------------

  /** The writes of any forward that resumed from the right state on a right prefix. */
  lemma WritesFollowHistory(net: Net, cache: seq<Kv>, h: seq<Token>, toks: seq<Token>)
    requires |h| <= |cache| && cache[..|h|] == Fold(net, h).kvs
    ensures var f := Feed(net, Fold(net, h).gdn, cache[..|h|], toks);
            && HiddensAlong(net, h, toks, f.hiddens)
            && |h + toks| <= |Overlay(cache, |h|, f.kvs)|
            && Overlay(cache, |h|, f.kvs)[..|h + toks|] == Fold(net, h + toks).kvs
            && forall j | 0 <= j < |toks| :: f.rows[j] == Fold(net, h + toks[..j + 1]).gdn
  {
    hide Fold, Feed, HiddenOf;
    FeedFollowsHistory(net, h, toks);
    var f := Feed(net, Fold(net, h).gdn, cache[..|h|], toks);
    OverlayPrefix(cache, |h|, f.kvs, |h|);
  }

  /** An in-place forward on a slot that holds `h`, or on a fresh slot when it starts from
      the blank state. */
  lemma InPlaceFollowsHistory(net: Net, s: Slot, h: seq<Token>, toks: seq<Token>, decode: bool)
    requires toks != []
    requires InPlace(net, s, h) || (h == [] && Fresh(s) && s.rows != [] && StartState(net, s, decode) == BLANK)
    ensures HiddensAlong(net, h, toks, FedInPlace(net, s, toks, decode).hiddens)
    ensures AheadInPlace(net, InPlaceForward(net, s, toks, decode, false), h, toks)
    ensures InPlace(net, InPlaceForward(net, s, toks, decode, true), h + toks)
  {
    hide Feed, HiddenOf, Overlay, HiddensAlong;
    assert StartState(net, s, decode) == Fold(net, h).gdn && s.cache[..s.kvLen] == Fold(net, h).kvs && s.kvLen == |h|;
    WritesFollowHistory(net, s.cache, h, toks);
    assert toks[..|toks|] == toks;
  }

  lemma SelectedFollowsHistory(net: Net, s: Slot, h: seq<Token>, toks: seq<Token>)
    requires Selected(net, s, h) && |toks| <= |s.rows|
    ensures HiddensAlong(net, h, toks, FedSelected(net, s, toks).hiddens)
    ensures AheadSelected(net, SelectedForward(net, s, toks), h, toks)
  {
    hide Feed, HiddenOf, Fold, HiddensAlong;
    WritesFollowHistory(net, s.cache, h, toks);
    var f := FedSelected(net, s, toks);
    OverlayPrefix(s.rows, 0, f.rows, 0);
    forall j | 0 <= j < |toks| ensures Overlay(s.rows, 0, f.rows)[j] == f.rows[j] {}
  }

  /** Committing a prefix of what was verified: the candidate row it ends on becomes the
      selected one, and everything past the new length is dead. */
  lemma SelectRow(net: Net, s: Slot, h: seq<Token>, toks: seq<Token>, n: nat)
    requires AheadSelected(net, s, h, toks) && 1 <= n <= |toks|
    ensures Selected(net, s.(kvLen := |h| + n, accepted := n), h + toks[..n])
  {
    var mid := h + toks[..n];
    assert mid + toks[n..] == h + toks;
    FoldExtends(net, mid, toks[n..]);
    assert s.cache[..|mid|] == s.cache[..|h + toks|][..|mid|];
  }

  /** Committing everything that an in-place verify wrote. */
  lemma KeepAll(net: Net, s: Slot, h: seq<Token>, toks: seq<Token>)
    requires AheadInPlace(net, s, h, toks)
    ensures InPlace(net, s.(kvLen := |h| + |toks|), h + toks)
  {
  }

  /** Undoing an in-place verify: the cache needs nothing, row 0 must be put back. */
  lemma UndoAll(net: Net, s: Slot, h: seq<Token>, toks: seq<Token>)
    requires AheadInPlace(net, s, h, toks)
    ensures InPlace(net, s.(rows := s.rows[0 := Fold(net, h).gdn]), h)
  {
    FoldExtends(net, h, toks);
    assert s.cache[..|h|] == s.cache[..|h + toks|][..|h|];
  }

  // ---------------------------------------------------------------------------
  // Where the two representations part ways.
  // ---------------------------------------------------------------------------

  /** After a speculative round row 0 holds the state after the anchor alone, so a snapshot,
      which copies row 0, captures the slot's state exactly when the model's state did not
      change over the accepted drafts: always after one token... */
  lemma RowZeroAfterRound(net: Net, s: Slot, h: seq<Token>, toks: seq<Token>, n: nat)
    requires AheadSelected(net, s, h, toks) && 1 <= n <= |toks|
    ensures InPlace(net, s.(kvLen := |h| + n, accepted := n), h + toks[..n]) <==>
            Fold(net, h + toks[..1]).gdn == Fold(net, h + toks[..n]).gdn
    ensures n == 1 ==> InPlace(net, s.(kvLen := |h| + n, accepted := n), h + toks[..n])
  {
    hide Fold;
    SelectRow(net, s, h, toks, n);
    assert s.rows[0] == Fold(net, h + toks[..0 + 1]).gdn;
  }

  lemma {:induction false} CountingFold(h: seq<Token>)
    ensures Fold(Counting(), h).gdn == |h|
  {
    if h != [] {
      CountingFold(h[..|h| - 1]);
    }
  }

  /** ...and for a model whose state counts what it read, never after more. */
  lemma RowZeroCounting(s: Slot, h: seq<Token>, toks: seq<Token>, n: nat)
    requires AheadSelected(Counting(), s, h, toks) && 1 <= n <= |toks|
    ensures InPlace(Counting(), s.(kvLen := |h| + n, accepted := n), h + toks[..n]) <==> n == 1
  {
    hide AheadSelected, InPlace;
    RowZeroAfterRound(Counting(), s, h, toks, n);
    CountingFold(h + toks[..n]);
    CountingFold(h + toks[..1]);
  }

  /** Starting from `row` instead of the blank state leaves the model in the same state. */
  ghost predicate CannotTell(net: Net, row: Gdn, tok: Token) {
    net.cell(row, [], tok).gdn == net.cell(BLANK, [], tok).gdn &&
    net.cell(row, [], tok).kv == net.cell(BLANK, [], tok).kv
  }

  /** A released slot keeps its last occupant's row 0.  The chunked prefill path never reads
      it; the single-token decode path does, so prefilling through it is right for the new
      history exactly when the old row happens to be blank (or the model cannot tell). */
  lemma DecodePrefillReadsOldRow(net: Net, s: Slot, tok: Token)
    requires Fresh(s) && s.rows != []
    ensures InPlace(net, InPlaceForward(net, s, [tok], true, true), [tok]) <==>
            CannotTell(net, s.rows[0], tok)
  {
    var f := FedInPlace(net, s, [tok], true);
    var t := InPlaceForward(net, s, [tok], true, true);
    assert s.cache[..0] == [] && [tok][..0] == [];
    var out := net.cell(s.rows[0], [], tok);
    assert f.rows == [out.gdn] && f.kvs == [out.kv];
    OverlayPrefix(s.cache, 0, f.kvs, 0);
    assert t.cache[..1] == [out.kv];
    assert Fold(net, [tok]) == Context(net.cell(BLANK, [], tok).gdn, [net.cell(BLANK, [], tok).kv]);
  }

  /** A concrete wrong prefill: the counting model on a slot whose last occupant had read
      five tokens. */
  lemma DecodePrefillCanBeWrong()
    ensures var s := Slot([], 0, [5], 1, false, [], 0, 0, 0, {});
            Fresh(s) && !InPlace(Counting(), InPlaceForward(Counting(), s, [3], true, true), [3])
  {
    DecodePrefillReadsOldRow(Counting(), Slot([], 0, [5], 1, false, [], 0, 0, 0, {}), 3);
  }

  // ---------------------------------------------------------------------------
  // Physical addresses of the rows.
  // ---------------------------------------------------------------------------

  /** The physical row of a slot's candidate column; physical slot 0 is reserved. */
  function PhysicalRow(slot: nat, col: nat, physicalSlots: nat, spec: nat): nat {
    if col == 0 then slot + 1 else physicalSlots + (slot + 1) * spec + (col - 1)
  }

  /** No two columns of any two slots share a row, so each slot's rows are its own. */
  lemma RowsAreDisjoint(numSlots: nat, spec: nat, a: nat, i: nat, b: nat, j: nat)
    requires a < numSlots && b < numSlots && i <= spec && j <= spec
    requires PhysicalRow(a, i, numSlots + 1, spec) == PhysicalRow(b, j, numSlots + 1, spec)
    ensures a == b && i == j
  {
    if a < b {
      RowGap(a, b, spec);
    } else if b < a {
      RowGap(b, a, spec);
    }
  }

  lemma RowGap(lo: nat, hi: nat, spec: nat)
    requires lo < hi
    ensures 0 <= (lo + 1) * spec && (lo + 1) * spec + spec <= (hi + 1) * spec
  {
    var d := hi - lo - 1;
    assert (hi + 1) * spec == (lo + 1) * spec + spec + d * spec;
    assert d * spec >= 0;
  }

  /** One column more than the configured number of drafts would be the next slot's. */
  lemma ExtraColumnCollides(slot: nat, physicalSlots: nat, spec: nat)
    requires 1 <= spec
    ensures PhysicalRow(slot, spec + 1, physicalSlots, spec) == PhysicalRow(slot + 1, 1, physicalSlots, spec)
  {
    assert (slot + 2) * spec == (slot + 1) * spec + spec;
  }
}
