/**
  Whole runs: prefill, then any number of verify rounds.
 */
module Runs {
  import opened Backends
  import opened Drafting
  import opened InlineRounds
  import opened Network
  import opened Runners
  import opened Slots
  import opened Speculation
  import opened Transcripts

  /** A request's output so far is the target's own greedy continuation of its prompt, and
      the slot's history plus the pending anchor is exactly prompt plus output. */
  ghost predicate OnTrack(net: Net, prompt: seq<Token>, out: seq<Token>, h: seq<Token>, anchor: Token) {
    prompt != [] && h != [] && h + [anchor] == prompt + out && IsGreedy(net, prompt, out)
  }

  lemma TrackStart(net: Net, s: Slot, prompt: seq<Token>, start: Start, k: nat)
    requires Prefilled(net, s, prompt, start, k)
    ensures OnTrack(net, prompt, [start.anchor], prompt, start.anchor)
  {
    hide Next, Drafts, DraftKvs, Fold;
    assert prompt + [start.anchor][..0] == prompt;
  }

  /** A round keeps a request on track whatever was drafted. */
  lemma TrackRound(net: Net, prompt: seq<Token>, out: seq<Token>, h: seq<Token>, anchor: Token, drafts: seq<Token>,
        round: Round)
    requires OnTrack(net, prompt, out, h, anchor) && Advanced(net, h, anchor, drafts, round)
    ensures OnTrack(net, prompt, out + round.decision.committed, Grown(h, anchor, round), round.nextAnchor)
  {
    hide Next, Drafts, Decide, IsGreedy;
    var d := round.decision;
    DecisionIsLossless(net, h, anchor, drafts);
    assert h + [anchor] == prompt + out;
    GreedyAppend(net, prompt, out, d.committed);
    assert d.committed == d.committed[..d.accepted] + [NextAnchor(d)];
    assert Grown(h, anchor, round) + [round.nextAnchor] == h + [anchor] + d.committed;
    assert h + [anchor] + d.committed == prompt + (out + d.committed);
  }

  /** A slot between rounds of either mechanism. */
  ghost predicate Serves(net: Net, s: Slot, inPlace: bool, h: seq<Token>, anchor: Token) {
    if inPlace then ServingInPlace(net, s, h, anchor) else Serving(net, s, h, anchor)
  }

  /** Everything a run keeps about one slot. */
  ghost predicate Live(net: Net, s: Slot, inPlace: bool, prompt: seq<Token>, out: seq<Token>, h: seq<Token>,
        anchor: Token, drafts: seq<Token>, k: nat)
  {
    && OnTrack(net, prompt, out, h, anchor) && 1 <= k
    && Serves(net, s, inPlace, h, anchor)
    && drafts == Drafts(net, h, anchor, k)
  }

  lemma LiveStart(net: Net, s: Slot, inPlace: bool, prompt: seq<Token>, start: Start, k: nat)
    requires Prefilled(net, s, prompt, start, k)
    ensures Live(net, s, inPlace, prompt, [start.anchor], prompt, start.anchor, start.drafts, k)
  {
    hide OnTrack, Next, Drafts, DraftKvs, Fold, Serving, ServingInPlace;
    TrackStart(net, s, prompt, start, k);
  }

  lemma LiveServes(net: Net, s: Slot, inPlace: bool, prompt: seq<Token>, out: seq<Token>, h: seq<Token>, anchor: Token,
        drafts: seq<Token>, k: nat)
    requires Live(net, s, inPlace, prompt, out, h, anchor, drafts, k)
    ensures Serves(net, s, inPlace, h, anchor)
    ensures |drafts| == k
  {
  }

  lemma LiveRound(net: Net, s: Slot, s': Slot, inPlace: bool, prompt: seq<Token>, out: seq<Token>, h: seq<Token>,
        anchor: Token, drafts: seq<Token>, submitted: seq<Token>, k: nat, round: Round)
    requires Live(net, s, inPlace, prompt, out, h, anchor, drafts, k) && |submitted| == k
    requires Advanced(net, h, anchor, submitted, round)
    requires Serves(net, s', inPlace, Grown(h, anchor, round), round.nextAnchor)
    ensures Live(net, s', inPlace, prompt, out + round.decision.committed, Grown(h, anchor, round), round.nextAnchor,
                 round.nextDrafts, k)
  {
    hide OnTrack, Drafts, Decide, Serves, Grown, NextAnchor;
    TrackRound(net, prompt, out, h, anchor, submitted, round);
  }

  /** The two lengths a slot keeps agree between rounds, and are the history's. */
  lemma LiveLengths(net: Net, s: Slot, inPlace: bool, prompt: seq<Token>, out: seq<Token>, h: seq<Token>, anchor: Token,
        drafts: seq<Token>, k: nat)
    requires Live(net, s, inPlace, prompt, out, h, anchor, drafts, k)
    ensures s.kvLen == s.syncLen == |prompt| + |out| - 1
    ensures out == Greedy(net, prompt, |out|)
  {
    hide Next, Drafts, DraftKvs, Fold, IsGreedy;
    GreedyIsUnique(net, prompt, out);
    assert |h| + 1 == |prompt + out|;
  }

  /** The same outputs come out of any two slots that are on track for the same prompt and
      have produced equally many tokens, whatever mechanism each uses. */
  lemma LiveAgree(net: Net, a: Slot, b: Slot, prompt: seq<Token>, outA: seq<Token>, outB: seq<Token>, hA: seq<Token>,
        hB: seq<Token>, anchorA: Token, anchorB: Token, draftsA: seq<Token>, draftsB: seq<Token>, k: nat)
    requires Live(net, a, true, prompt, outA, hA, anchorA, draftsA, k)
    requires Live(net, b, false, prompt, outB, hB, anchorB, draftsB, k)
    requires |outA| == |outB|
    ensures outA == outB && hA == hB && anchorA == anchorB && draftsA == draftsB
  {
    hide Next, Drafts, DraftKvs, Fold, IsGreedy, Serving, ServingInPlace;
    GreedyIsUnique(net, prompt, outA);
    GreedyIsUnique(net, prompt, outB);
    assert hA == (hA + [anchorA])[..|hA|] && hB == (hB + [anchorB])[..|hB|];
    assert anchorA == (hA + [anchorA])[|hA|] && anchorB == (hB + [anchorB])[|hB|];
  }

  /** Everything two slots will ever be asked for is the same: the live recurrent row of each
      mechanism, and both caches below the lengths. */
  ghost predicate SameState(inPlace: Slot, selected: Slot) {
    && inPlace.rows != [] && 1 <= selected.accepted <= |selected.rows|
    && inPlace.rows[0] == selected.rows[selected.accepted - 1]
    && inPlace.kvLen == selected.kvLen <= |inPlace.cache| && selected.kvLen <= |selected.cache|
    && inPlace.cache[..inPlace.kvLen] == selected.cache[..selected.kvLen]
    && inPlace.syncLen == selected.syncLen <= |inPlace.draft| && selected.syncLen <= |selected.draft|
    && inPlace.draft[..inPlace.syncLen] == selected.draft[..selected.syncLen]
  }

  lemma LiveSameState(net: Net, a: Slot, b: Slot, prompt: seq<Token>, out: seq<Token>, h: seq<Token>, anchor: Token,
        drafts: seq<Token>, k: nat)
    requires Live(net, a, true, prompt, out, h, anchor, drafts, k)
    requires Live(net, b, false, prompt, out, h, anchor, drafts, k)
    ensures SameState(a, b)
  {
    hide OnTrack, Drafts, DraftKvs, Fold;
  }

  /** What the driver of a run remembers: pending anchor, next drafts and output per slot. */
  datatype Book = Book(anchors: map<nat, Token>, drafts: map<nat, seq<Token>>, outs: map<nat, seq<Token>>)

  ghost predicate Covers(ids: seq<nat>, book: Book, prompts: map<nat, seq<Token>>, hs: map<nat, seq<Token>>) {
    forall i | 0 <= i < |ids| ::
      ids[i] in book.anchors && ids[i] in book.drafts && ids[i] in book.outs && ids[i] in prompts && ids[i] in hs
  }

  ghost predicate AllLive(net: Net, slots: seq<Slot>, inPlace: bool, ids: seq<nat>, prompts: map<nat, seq<Token>>,
        book: Book, hs: map<nat, seq<Token>>, k: nat)
    requires Covers(ids, book, prompts, hs)
  {
    forall i | 0 <= i < |ids| :: ids[i] < |slots| &&
      Live(net, slots[ids[i]], inPlace, prompts[ids[i]], book.outs[ids[i]], hs[ids[i]], book.anchors[ids[i]],
           book.drafts[ids[i]], k)
  }

  /** Prefill may resume from row 0 only if nothing is in it. */
  ghost predicate StartsClean(s: Slot, decode: bool) {
    !decode || (s.rows != [] && s.rows[0] == BLANK)
  }

  /** The driver's first entry. */
  function Opened(starts: map<nat, Start>): Book {
    Book(map s | s in starts :: starts[s].anchor, map s | s in starts :: starts[s].drafts,
         map s | s in starts :: [starts[s].anchor])
  }

  lemma OpenedLive(net: Net, slots: seq<Slot>, inPlace: bool, ids: seq<nat>, prompts: seq<seq<Token>>,
        starts: map<nat, Start>, asked: map<nat, seq<Token>>, k: nat)
    requires |ids| == |prompts|
    requires forall i | 0 <= i < |ids| ::
               ids[i] < |slots| && ids[i] in starts && ids[i] in asked && asked[ids[i]] == prompts[i]
    requires forall i | 0 <= i < |ids| :: Prefilled(net, slots[ids[i]], prompts[i], starts[ids[i]], k)
    ensures Covers(ids, Opened(starts), asked, asked)
    ensures AllLive(net, slots, inPlace, ids, asked, Opened(starts), asked, k)
    ensures forall i | 0 <= i < |ids| :: |Opened(starts).outs[ids[i]]| == 1
  {
    hide Live, Prefilled;
    forall i | 0 <= i < |ids|
      ensures Live(net, slots[ids[i]], inPlace, prompts[i], [starts[ids[i]].anchor], prompts[i], starts[ids[i]].anchor,
                   starts[ids[i]].drafts, k)
    {
      LiveStart(net, slots[ids[i]], inPlace, prompts[i], starts[ids[i]], k);
    }
  }

  lemma CleanPrefills(net: Net, s: Slot, s': Slot, prompt: seq<Token>, decode: bool, start: Start, k: nat)
    requires StartsClean(s, decode) && PrefillOutcome(net, s, s', prompt, decode, start, k)
    ensures Prefilled(net, s', prompt, start, k)
  {
    hide Prefilled;
  }

  /** Prefill a batch of fresh slots. */
  method Begin(b: Backend, inPlace: bool, ids: seq<nat>, prompts: seq<seq<Token>>)
    returns (book: Book, ghost asked: map<nat, seq<Token>>)
    requires b.r.Valid() && b.r.Known(ids) && |ids| == |prompts|
    requires forall i | 0 <= i < |ids| :: prompts[i] != [] && Fresh(b.r.slots[ids[i]])
    requires forall i | 0 <= i < |ids| :: StartsClean(b.r.slots[ids[i]], AllSingle(prompts))
    modifies b.r
    ensures b.r.Valid() && Untouched(old(b.r.slots), b.r.slots, ids)
    ensures forall i | 0 <= i < |ids| :: ids[i] in asked && asked[ids[i]] == prompts[i]
    ensures Covers(ids, book, asked, asked)
    ensures AllLive(b.r.batch, b.r.slots, inPlace, ids, asked, book, asked, b.r.spec)
    ensures forall i | 0 <= i < |ids| :: |book.outs[ids[i]]| == 1
  {
    hide AllSingle, Live, Prefilled, PrefillOutcome, StartsClean, Fresh, Covers, AllLive, Runner.Valid, Opened;
    var starts := b.PrefillBatch(ids, prompts);
    asked := ByKeyGhost(ids, prompts);
    book := Opened(starts);
    forall i | 0 <= i < |ids| ensures Prefilled(b.r.batch, b.r.slots[ids[i]], prompts[i], starts[ids[i]], b.r.spec) {
      CleanPrefills(b.r.batch, old(b.r.slots)[ids[i]], b.r.slots[ids[i]], prompts[i], AllSingle(prompts),
                    starts[ids[i]], b.r.spec);
    }
    OpenedLive(b.r.batch, b.r.slots, inPlace, ids, prompts, starts, asked, b.r.spec);
  }

  /** One round of the chosen mechanism. */
  method RunRound(b: Backend, inPlace: bool, ids: seq<nat>, anchors: map<nat, Token>, drafts: map<nat, seq<Token>>,
        ghost hs: map<nat, seq<Token>>)
    returns (rounds: map<nat, Round>)
    requires b.r.Valid() && b.r.Known(ids) && ids != []
    requires forall i | 0 <= i < |ids| ::
               ids[i] in anchors && ids[i] in drafts && ids[i] in hs && |drafts[ids[i]]| == b.r.spec
    requires forall i | 0 <= i < |ids| :: Serves(b.r.batch, b.r.slots[ids[i]], inPlace, hs[ids[i]], anchors[ids[i]])
    modifies b.r
    ensures b.r.Valid() && Untouched(old(b.r.slots), b.r.slots, ids) && rounds.Keys == set s | s in ids
    ensures forall i | 0 <= i < |ids| ::
              && Advanced(b.r.batch, hs[ids[i]], anchors[ids[i]], drafts[ids[i]], rounds[ids[i]])
              && Serves(b.r.batch, b.r.slots[ids[i]], inPlace, Grown(hs[ids[i]], anchors[ids[i]], rounds[ids[i]]),
                        rounds[ids[i]].nextAnchor)
  {
    hide ServingInPlace, Serving, Advanced, Grown, WellFormed;
    if inPlace {
      rounds := RunOneRoundInline(b, ids, anchors, drafts, hs);
    } else {
      rounds := b.VerifyAndCommitBatch(ids, anchors, drafts, hs);
    }
  }

  /** A round is a function of the slot's history, anchor and drafts. */
  lemma AdvancedIsUnique(net: Net, h: seq<Token>, anchor: Token, drafts: seq<Token>, x: Round, y: Round)
    requires Advanced(net, h, anchor, drafts, x) && Advanced(net, h, anchor, drafts, y)
    ensures x == y
  {
    hide Decide, Drafts;
  }

  /** A slot verified together with any others, by either mechanism, reports exactly what a slot
      with the same history reports when it is verified alone in another runner, and the two
      slots are left holding the same history. */
  method TogetherOrAlone(b: Backend, c: Backend, inPlace: bool, ids: seq<nat>, anchors: map<nat, Token>,
        drafts: map<nat, seq<Token>>, ghost hs: map<nat, seq<Token>>, p: nat, slot: nat)
    returns (together: map<nat, Round>, alone: Round)
    requires b.r != c.r && b.r.batch == c.r.batch && b.r.spec == c.r.spec
    requires b.r.Valid() && b.r.Known(ids) && p < |ids| && c.r.Valid() && slot < |c.r.slots|
    requires forall i | 0 <= i < |ids| ::
               ids[i] in anchors && ids[i] in drafts && ids[i] in hs && |drafts[ids[i]]| == b.r.spec
    requires forall i | 0 <= i < |ids| :: Serves(b.r.batch, b.r.slots[ids[i]], inPlace, hs[ids[i]], anchors[ids[i]])
    requires Serving(c.r.batch, c.r.slots[slot], hs[ids[p]], anchors[ids[p]])
    modifies b.r, c.r
    ensures ids[p] < |b.r.slots| && ids[p] in together && alone == together[ids[p]]
    ensures Serves(b.r.batch, b.r.slots[ids[p]], inPlace, Grown(hs[ids[p]], anchors[ids[p]], alone), alone.nextAnchor)
    ensures slot < |c.r.slots|
    ensures Serving(c.r.batch, c.r.slots[slot], Grown(hs[ids[p]], anchors[ids[p]], alone), alone.nextAnchor)
  {
    hide Serves, Serving, Advanced, Grown, WellFormed;
    together := RunRound(b, inPlace, ids, anchors, drafts, hs);
    assert ids[p] in together;
    var one := [slot];
    assert one[0] == slot;
    var rounds := c.VerifyAndCommitBatch(one, map[slot := anchors[ids[p]]], map[slot := drafts[ids[p]]],
                                         map[slot := hs[ids[p]]]);
    assert slot in one;
    alone := rounds[slot];
    AdvancedIsUnique(b.r.batch, hs[ids[p]], anchors[ids[p]], drafts[ids[p]], together[ids[p]], alone);
  }

  /** The driver's own bookkeeping after a round. */
  function Noted(book: Book, rounds: map<nat, Round>): Book {
    Book(map s | s in rounds :: rounds[s].nextAnchor, map s | s in rounds :: rounds[s].nextDrafts,
         map s | s in rounds && s in book.outs :: book.outs[s] + rounds[s].decision.committed)
  }

  ghost function Histories(book: Book, rounds: map<nat, Round>, hs: map<nat, seq<Token>>): map<nat, seq<Token>> {
    map s | s in rounds && s in book.anchors && s in hs :: Grown(hs[s], book.anchors[s], rounds[s])
  }

  /** One round with any drafts submitted in place of the proposed ones. */
  method Step(b: Backend, inPlace: bool, ids: seq<nat>, ghost prompts: map<nat, seq<Token>>, book: Book,
        submitted: map<nat, seq<Token>>, ghost hs: map<nat, seq<Token>>)
    returns (book': Book, ghost hs': map<nat, seq<Token>>, rounds: map<nat, Round>)
    requires b.r.Valid() && b.r.Known(ids) && ids != []
    requires Covers(ids, book, prompts, hs)
    requires AllLive(b.r.batch, b.r.slots, inPlace, ids, prompts, book, hs, b.r.spec)
    requires forall i | 0 <= i < |ids| :: ids[i] in submitted && |submitted[ids[i]]| == b.r.spec
    modifies b.r
    ensures b.r.Valid() && Untouched(old(b.r.slots), b.r.slots, ids)
    ensures Covers(ids, book', prompts, hs') && forall i | 0 <= i < |ids| :: ids[i] in rounds
    ensures AllLive(b.r.batch, b.r.slots, inPlace, ids, prompts, book', hs', b.r.spec)
    ensures forall i | 0 <= i < |ids| ::
              && Advanced(b.r.batch, hs[ids[i]], book.anchors[ids[i]], submitted[ids[i]], rounds[ids[i]])
              && rounds[ids[i]].decision == Decide(b.r.batch, hs[ids[i]], book.anchors[ids[i]], submitted[ids[i]])
              && book'.outs[ids[i]] == book.outs[ids[i]] + rounds[ids[i]].decision.committed
  {
    hide Live, Serves, Advanced, Grown, Decide, WellFormed;
    forall i | 0 <= i < |ids| ensures Serves(b.r.batch, b.r.slots[ids[i]], inPlace, hs[ids[i]], book.anchors[ids[i]]) {
      LiveServes(b.r.batch, b.r.slots[ids[i]], inPlace, prompts[ids[i]], book.outs[ids[i]], hs[ids[i]],
                 book.anchors[ids[i]], book.drafts[ids[i]], b.r.spec);
    }
    rounds := RunRound(b, inPlace, ids, book.anchors, submitted, hs);
    book', hs' := Noted(book, rounds), Histories(book, rounds, hs);
    forall i | 0 <= i < |ids|
      ensures ids[i] in rounds && ids[i] in book'.outs && ids[i] in hs'
      ensures Live(b.r.batch, b.r.slots[ids[i]], inPlace, prompts[ids[i]], book'.outs[ids[i]], hs'[ids[i]],
                   book'.anchors[ids[i]], book'.drafts[ids[i]], b.r.spec)
      ensures rounds[ids[i]].decision == Decide(b.r.batch, hs[ids[i]], book.anchors[ids[i]], submitted[ids[i]])
    {
      assert ids[i] in rounds;
      LiveRound(b.r.batch, old(b.r.slots)[ids[i]], b.r.slots[ids[i]], inPlace, prompts[ids[i]], book.outs[ids[i]],
                hs[ids[i]], book.anchors[ids[i]], book.drafts[ids[i]], submitted[ids[i]], b.r.spec, rounds[ids[i]]);
      AdvancedDecides(b.r.batch, hs[ids[i]], book.anchors[ids[i]], submitted[ids[i]], rounds[ids[i]]);
    }
  }

  lemma AdvancedDecides(net: Net, h: seq<Token>, anchor: Token, drafts: seq<Token>, round: Round)
    requires Advanced(net, h, anchor, drafts, round)
    ensures round.decision == Decide(net, h, anchor, drafts)
  {
  }

  // ---------------------------------------------------------------------------
  // Runs with a record of their rounds.
  // ---------------------------------------------------------------------------

  /** The slot took part in every round, its rounds are a transcript of the i-th request, and its
      output is what they committed after the first token. */
  ghost predicate OnRecord(net: Net, prompt: seq<Token>, outs: map<nat, seq<Token>>, rounds: seq<map<nat, Round>>,
        s: nat, change: Change, i: nat, k: nat)
  {
    && s in outs && Attends(rounds, s) && Transcript(net, prompt, Column(rounds, s), change, i, k)
    && outs[s] == Output(Next(net, prompt), Column(rounds, s))
  }

  ghost predicate AllRecorded(net: Net, ids: seq<nat>, prompts: map<nat, seq<Token>>, outs: map<nat, seq<Token>>,
        rounds: seq<map<nat, Round>>, change: Change, k: nat)
  {
    forall i | 0 <= i < |ids| ::
      ids[i] in prompts && OnRecord(net, prompts[ids[i]], outs, rounds, ids[i], change, i, k)
  }

  lemma {:induction false} LiveFirst(net: Net, s: Slot, inPlace: bool, prompt: seq<Token>, out: seq<Token>,
        h: seq<Token>, anchor: Token, drafts: seq<Token>, k: nat)
    requires Live(net, s, inPlace, prompt, out, h, anchor, drafts, k) && |out| == 1
    ensures prompt != [] && 1 <= k && out == [Next(net, prompt)]
  {
    hide Next, Drafts, Serves;
    assert prompt + out[..0] == prompt;
  }

  lemma {:induction false} RecordStarts(net: Net, slots: seq<Slot>, inPlace: bool, ids: seq<nat>,
        prompts: map<nat, seq<Token>>, book: Book, hs: map<nat, seq<Token>>, change: Change, k: nat)
    requires Covers(ids, book, prompts, hs) && AllLive(net, slots, inPlace, ids, prompts, book, hs, k)
    requires forall i | 0 <= i < |ids| :: |book.outs[ids[i]]| == 1
    ensures AllRecorded(net, ids, prompts, book.outs, [], change, k)
  {
    hide Next, Live, Transcript, Output;
    forall i | 0 <= i < |ids|
      ensures prompts[ids[i]] != [] && Transcript(net, prompts[ids[i]], Column([], ids[i]), change, i, k)
      ensures book.outs[ids[i]] == Output(Next(net, prompts[ids[i]]), Column([], ids[i]))
    {
      LiveFirst(net, slots[ids[i]], inPlace, prompts[ids[i]], book.outs[ids[i]], hs[ids[i]], book.anchors[ids[i]],
                book.drafts[ids[i]], k);
      TranscriptNil(net, prompts[ids[i]], change, i, k);
    }
  }

  lemma {:induction false} LiveProposal(net: Net, s: Slot, inPlace: bool, prompt: seq<Token>, out: seq<Token>,
        h: seq<Token>, anchor: Token, drafts: seq<Token>, k: nat)
    requires Live(net, s, inPlace, prompt, out, h, anchor, drafts, k)
    ensures prompt != [] && h != [] && 1 <= k && drafts == Drafts(net, h, anchor, k) && h + [anchor] == prompt + out
  {
  }

  /** One more round on record. */
  lemma {:induction false} RecordStep(net: Net, slots: seq<Slot>, inPlace: bool, ids: seq<nat>,
        prompts: map<nat, seq<Token>>, book: Book, hs: map<nat, seq<Token>>, outs': map<nat, seq<Token>>,
        submitted: map<nat, seq<Token>>, rounds: seq<map<nat, Round>>, more: map<nat, Round>, change: Change, k: nat)
    requires Covers(ids, book, prompts, hs) && AllLive(net, slots, inPlace, ids, prompts, book, hs, k)
    requires AllRecorded(net, ids, prompts, book.outs, rounds, change, k)
    requires forall i | 0 <= i < |ids| ::
               && ids[i] in submitted && submitted[ids[i]] == change(|rounds|, i, book.drafts[ids[i]])
               && ids[i] in more && ids[i] in outs'
               && Advanced(net, hs[ids[i]], book.anchors[ids[i]], submitted[ids[i]], more[ids[i]])
               && outs'[ids[i]] == book.outs[ids[i]] + more[ids[i]].decision.committed
    ensures AllRecorded(net, ids, prompts, outs', rounds + [more], change, k)
  {
    hide Next, Live, Transcript, Output, Advanced, Drafts;
    forall i | 0 <= i < |ids|
      ensures Attends(rounds + [more], ids[i]) && prompts[ids[i]] != []
      ensures Transcript(net, prompts[ids[i]], Column(rounds + [more], ids[i]), change, i, k)
      ensures outs'[ids[i]] == Output(Next(net, prompts[ids[i]]), Column(rounds + [more], ids[i]))
    {
      var s := ids[i];
      ColumnSnoc(rounds, more, s);
      LiveProposal(net, slots[s], inPlace, prompts[s], book.outs[s], hs[s], book.anchors[s], book.drafts[s], k);
      TranscriptSnoc(net, prompts[s], Column(rounds, s), more[s], change, i, k, hs[s], book.anchors[s]);
    }
  }

  /** Replace each slot's proposal before it is verified, as the forced-reject checks do. */
  method Submit(ids: seq<nat>, drafts: map<nat, seq<Token>>, change: Change, round: nat)
    returns (submitted: map<nat, seq<Token>>)
    requires Distinct(ids) && forall i | 0 <= i < |ids| :: ids[i] in drafts
    ensures forall i | 0 <= i < |ids| :: ids[i] in submitted && submitted[ids[i]] == change(round, i, drafts[ids[i]])
  {
    submitted := map[];
    for i := 0 to |ids|
      invariant forall j | 0 <= j < i :: ids[j] in submitted && submitted[ids[j]] == change(round, j, drafts[ids[j]])
    {
      submitted := submitted[ids[i] := change(round, i, drafts[ids[i]])];
    }
  }

  /** One round of either mechanism, put on record: `change` says what is submitted in place of each proposal. */
  method SideRound(b: Backend, inPlace: bool, ids: seq<nat>, ghost asked: map<nat, seq<Token>>, book: Book,
        ghost hs: map<nat, seq<Token>>, change: Change, rounds: seq<map<nat, Round>>)
    returns (book': Book, ghost hs': map<nat, seq<Token>>, more: map<nat, Round>)
    requires b.r.Valid() && b.r.Known(ids) && ids != [] && Covers(ids, book, asked, hs)
    requires AllLive(b.r.batch, b.r.slots, inPlace, ids, asked, book, hs, b.r.spec)
    requires AllRecorded(b.r.batch, ids, asked, book.outs, rounds, change, b.r.spec)
    requires forall r: nat, i: nat, d: seq<Token> :: |change(r, i, d)| == |d|
    modifies b.r
    ensures b.r.Valid() && Untouched(old(b.r.slots), b.r.slots, ids)
    ensures Covers(ids, book', asked, hs')
    ensures AllLive(b.r.batch, b.r.slots, inPlace, ids, asked, book', hs', b.r.spec)
    ensures AllRecorded(b.r.batch, ids, asked, book'.outs, rounds + [more], change, b.r.spec)
    ensures forall i | 0 <= i < |ids| ::
              && ids[i] in more && |change(|rounds|, i, book.drafts[ids[i]])| == b.r.spec && hs[ids[i]] != []
              && more[ids[i]].decision == Decide(b.r.batch, hs[ids[i]], book.anchors[ids[i]],
                                                 change(|rounds|, i, book.drafts[ids[i]]))
              && book'.outs[ids[i]] == book.outs[ids[i]] + more[ids[i]].decision.committed
  {
    hide Live, WellFormed, Decide, AllRecorded, Advanced;
    forall i | 0 <= i < |ids| ensures |book.drafts[ids[i]]| == b.r.spec && hs[ids[i]] != [] {
      LiveServes(b.r.batch, b.r.slots[ids[i]], inPlace, asked[ids[i]], book.outs[ids[i]], hs[ids[i]],
                 book.anchors[ids[i]], book.drafts[ids[i]], b.r.spec);
      LiveProposal(b.r.batch, b.r.slots[ids[i]], inPlace, asked[ids[i]], book.outs[ids[i]], hs[ids[i]],
                   book.anchors[ids[i]], book.drafts[ids[i]], b.r.spec);
    }
    var submitted := Submit(ids, book.drafts, change, |rounds|);
    book', hs', more := Step(b, inPlace, ids, asked, book, submitted, hs);
    RecordStep(b.r.batch, old(b.r.slots), inPlace, ids, asked, book, hs, book'.outs, submitted, rounds, more, change,
               b.r.spec);
  }

  lemma {:induction false} RecordMeans(net: Net, ids: seq<nat>, prompts: seq<seq<Token>>, asked: map<nat, seq<Token>>,
        outs: map<nat, seq<Token>>, rounds: seq<map<nat, Round>>, change: Change, k: nat)
    requires AllRecorded(net, ids, asked, outs, rounds, change, k) && |ids| == |prompts|
    requires forall i | 0 <= i < |ids| :: ids[i] in asked && asked[ids[i]] == prompts[i]
    ensures forall i | 0 <= i < |ids| :: OnRecord(net, prompts[i], outs, rounds, ids[i], change, i, k)
  {
    hide OnRecord;
  }

  /** The profiling driver: prefill, then n snapshot-and-recompute rounds over the model's own
      drafts.  It returns its rounds: n of them for every slot, each the model's own at the history
      the earlier ones left.  Every output is the first token followed by what they committed,
      which is the target's own greedy continuation, and both lengths of every slot are the
      history's. */
  method ReplayRounds(b: Backend, ids: seq<nat>, prompts: seq<seq<Token>>, n: nat)
    returns (book: Book, rounds: seq<map<nat, Round>>)
    requires b.r.Valid() && b.r.Known(ids) && |ids| == |prompts| && ids != []
    requires forall i | 0 <= i < |ids| :: prompts[i] != [] && Fresh(b.r.slots[ids[i]])
    requires forall i | 0 <= i < |ids| :: StartsClean(b.r.slots[ids[i]], AllSingle(prompts))
    modifies b.r
    ensures b.r.Valid() && Untouched(old(b.r.slots), b.r.slots, ids) && |rounds| == n
    ensures forall i | 0 <= i < |ids| ::
              && ids[i] in book.outs && |book.outs[ids[i]]| >= n + 1
              && book.outs[ids[i]] == Greedy(b.r.batch, prompts[i], |book.outs[ids[i]]|)
              && b.r.slots[ids[i]].kvLen == b.r.slots[ids[i]].syncLen == |prompts[i]| + |book.outs[ids[i]]| - 1
    ensures forall i | 0 <= i < |ids| ::
              OnRecord(b.r.batch, prompts[i], book.outs, rounds, ids[i], Unchanged, i, b.r.spec)
  {
    hide Live, AllSingle, Fresh, StartsClean, WellFormed, OnRecord, Decide, Advanced, Next;
    ghost var asked;
    book, asked := Begin(b, true, ids, prompts);
    ghost var hs := asked;
    rounds := [];
    RecordStarts(b.r.batch, b.r.slots, true, ids, asked, book, hs, Unchanged, b.r.spec);
    hide AllRecorded;
    for round := 0 to n
      invariant b.r.Valid() && Untouched(old(b.r.slots), b.r.slots, ids) && |rounds| == round
      invariant Covers(ids, book, asked, hs) && AllLive(b.r.batch, b.r.slots, true, ids, asked, book, hs, b.r.spec)
      invariant AllRecorded(b.r.batch, ids, asked, book.outs, rounds, Unchanged, b.r.spec)
      invariant forall i | 0 <= i < |ids| :: |book.outs[ids[i]]| >= round + 1
    {
      var more;
      book, hs, more := SideRound(b, true, ids, asked, book, hs, Unchanged, rounds);
      rounds := rounds + [more];
    }
    RecordMeans(b.r.batch, ids, prompts, asked, book.outs, rounds, Unchanged, b.r.spec);
    forall i | 0 <= i < |ids|
      ensures book.outs[ids[i]] == Greedy(b.r.batch, prompts[i], |book.outs[ids[i]]|)
      ensures b.r.slots[ids[i]].kvLen == b.r.slots[ids[i]].syncLen == |prompts[i]| + |book.outs[ids[i]]| - 1
    {
      LiveLengths(b.r.batch, b.r.slots[ids[i]], true, prompts[i], book.outs[ids[i]], hs[ids[i]], book.anchors[ids[i]],
                  book.drafts[ids[i]], b.r.spec);
    }
  }

  /** Both sides of a comparison cover their slots with live requests that have said equally
      much so far. */
  ghost predicate Twins(r: Runner, left: seq<nat>, right: seq<nat>, prompts: seq<seq<Token>>, bookL: Book, bookR: Book,
        asked: map<nat, seq<Token>>, askedR: map<nat, seq<Token>>, hsL: map<nat, seq<Token>>, hsR: map<nat, seq<Token>>)
    reads r
  {
    && |left| == |right| == |prompts|
    && Covers(left, bookL, asked, hsL) && Covers(right, bookR, askedR, hsR)
    && (forall i | 0 <= i < |left| ::
          prompts[i] != [] && asked[left[i]] == prompts[i] && askedR[right[i]] == prompts[i])
    && AllLive(r.batch, r.slots, true, left, asked, bookL, hsL, r.spec)
    && AllLive(r.batch, r.slots, false, right, askedR, bookR, hsR, r.spec)
    && forall i | 0 <= i < |left| :: |bookL.outs[left[i]]| == |bookR.outs[right[i]]|
  }

  /** A round on other slots leaves the requests here as they were. */
  lemma LiveElsewhere(net: Net, before: seq<Slot>, after: seq<Slot>, inPlace: bool, ids: seq<nat>, others: seq<nat>,
        prompts: map<nat, seq<Token>>, book: Book, hs: map<nat, seq<Token>>, k: nat)
    requires Covers(ids, book, prompts, hs) && AllLive(net, before, inPlace, ids, prompts, book, hs, k)
    requires Untouched(before, after, others) && forall i | 0 <= i < |ids| :: ids[i] !in others
    ensures AllLive(net, after, inPlace, ids, prompts, book, hs, k)
  {
    hide Live;
  }

  /** The comparison so far: twins, with the rounds of both sides on record and equal in what they
      committed. */
  ghost predicate Compared(r: Runner, left: seq<nat>, right: seq<nat>, prompts: seq<seq<Token>>, bookL: Book,
        bookR: Book, asked: map<nat, seq<Token>>, askedR: map<nat, seq<Token>>, hsL: map<nat, seq<Token>>,
        hsR: map<nat, seq<Token>>, roundsL: seq<map<nat, Round>>, roundsR: seq<map<nat, Round>>, change: Change)
    reads r
  {
    && Twins(r, left, right, prompts, bookL, bookR, asked, askedR, hsL, hsR) && |roundsL| == |roundsR|
    && AllRecorded(r.batch, left, asked, bookL.outs, roundsL, change, r.spec)
    && AllRecorded(r.batch, right, askedR, bookR.outs, roundsR, change, r.spec)
    && SameRounds(left, right, roundsL, roundsR)
  }

  /** Both sides committed the same in every round. */
  ghost predicate SameRounds(left: seq<nat>, right: seq<nat>, roundsL: seq<map<nat, Round>>,
        roundsR: seq<map<nat, Round>>)
  {
    |roundsL| == |roundsR| && |left| == |right| && forall t | 0 <= t < |roundsL| ::
      SameCommitted(left, right, roundsL[t], roundsR[t])
  }

  ghost predicate SameCommitted(left: seq<nat>, right: seq<nat>, moreL: map<nat, Round>, moreR: map<nat, Round>) {
    |left| == |right| && forall i | 0 <= i < |left| ::
      && left[i] in moreL && right[i] in moreR
      && moreL[left[i]].decision.committed == moreR[right[i]].decision.committed
  }

  lemma {:induction false} SameRoundsSnoc(left: seq<nat>, right: seq<nat>, roundsL: seq<map<nat, Round>>,
        roundsR: seq<map<nat, Round>>, moreL: map<nat, Round>, moreR: map<nat, Round>)
    requires SameRounds(left, right, roundsL, roundsR) && SameCommitted(left, right, moreL, moreR)
    ensures SameRounds(left, right, roundsL + [moreL], roundsR + [moreR])
  {
    hide SameCommitted;
  }

  /** One round on each side over drafts changed alike. */
  method TwinRound(b: Backend, left: seq<nat>, right: seq<nat>, ghost prompts: seq<seq<Token>>, bookL: Book,
        bookR: Book, ghost asked: map<nat, seq<Token>>, ghost askedR: map<nat, seq<Token>>,
        ghost hsL: map<nat, seq<Token>>, ghost hsR: map<nat, seq<Token>>, change: Change, roundsL: seq<map<nat, Round>>,
        roundsR: seq<map<nat, Round>>)
    returns (agree: bool, bookL': Book, bookR': Book, roundsL': seq<map<nat, Round>>, roundsR': seq<map<nat, Round>>,
             ghost hsL': map<nat, seq<Token>>, ghost hsR': map<nat, seq<Token>>)
    requires b.r.Valid() && b.r.Known(left) && b.r.Known(right) && left != []
    requires forall i | 0 <= i < |left| && i < |right| :: left[i] !in right && right[i] !in left
    requires Compared(b.r, left, right, prompts, bookL, bookR, asked, askedR, hsL, hsR, roundsL, roundsR, change)
    requires forall r: nat, i: nat, d: seq<Token> :: |change(r, i, d)| == |d|
    modifies b.r
    ensures b.r.Valid() && Untouched(old(b.r.slots), b.r.slots, left + right) && agree
    ensures |roundsL'| == |roundsL| + 1
    ensures Compared(b.r, left, right, prompts, bookL', bookR', asked, askedR, hsL', hsR', roundsL', roundsR', change)
  {
    hide AllLive, WellFormed, SameState, Decide, Greedy, AllRecorded, SameRounds;
    TwinsAgree(b, left, right, prompts, bookL, bookR, asked, askedR, hsL, hsR);
    var moreL, moreR;
    bookL', hsL', moreL := SideRound(b, true, left, asked, bookL, hsL, change, roundsL);
    label between:
    LiveElsewhere(b.r.batch, old(b.r.slots), b.r.slots, false, right, left, askedR, bookR, hsR, b.r.spec);
    bookR', hsR', moreR := SideRound(b, false, right, askedR, bookR, hsR, change, roundsR);
    LiveElsewhere(b.r.batch, old@between(b.r.slots), b.r.slots, true, left, right, asked, bookL', hsL', b.r.spec);
    agree := SameCommits(left, right, moreL, moreR);
    SameRoundsSnoc(left, right, roundsL, roundsR, moreL, moreR);
    roundsL', roundsR' := roundsL + [moreL], roundsR + [moreR];
  }

  method SameCommits(left: seq<nat>, right: seq<nat>, moreL: map<nat, Round>, moreR: map<nat, Round>)
    returns (agree: bool)
    requires |left| == |right| && forall i | 0 <= i < |left| :: left[i] in moreL && right[i] in moreR
    ensures agree <==> SameCommitted(left, right, moreL, moreR)
  {
    agree := true;
    for i := 0 to |left|
      invariant agree <==>
                forall j | 0 <= j < i :: moreL[left[j]].decision.committed == moreR[right[j]].decision.committed
    {
      agree := agree && moreL[left[i]].decision.committed == moreR[right[i]].decision.committed;
    }
  }

  /** Do both prefills leave the same anchors and proposals? */
  method SameStarts(left: seq<nat>, right: seq<nat>, bookL: Book, bookR: Book) returns (agree: bool)
    requires |left| == |right|
    requires forall i | 0 <= i < |left| :: left[i] in bookL.anchors && left[i] in bookL.drafts
    requires forall i | 0 <= i < |right| :: right[i] in bookR.anchors && right[i] in bookR.drafts
    ensures agree <==>
            forall i | 0 <= i < |left| ::
              bookL.anchors[left[i]] == bookR.anchors[right[i]] && bookL.drafts[left[i]] == bookR.drafts[right[i]]
  {
    agree := true;
    for i := 0 to |left|
      invariant agree <==>
                forall j | 0 <= j < i ::
                  bookL.anchors[left[j]] == bookR.anchors[right[j]] && bookL.drafts[left[j]] == bookR.drafts[right[j]]
    {
      agree := agree && bookL.anchors[left[i]] == bookR.anchors[right[i]]
               && bookL.drafts[left[i]] == bookR.drafts[right[i]];
    }
  }

  /** Twin slots driven by the two mechanisms, with the same arbitrary changes to the drafts
      before every round.  It returns the rounds of both sides, n for every slot: each the model's
      own at the history the earlier ones left, over the changed proposal of that history.  The two
      sides start alike and never differ in what a round commits, and both are lossless. */
  method CompareMechanisms(b: Backend, left: seq<nat>, right: seq<nat>, prompts: seq<seq<Token>>, change: Change,
        n: nat)
    returns (agree: bool, bookL: Book, bookR: Book, roundsL: seq<map<nat, Round>>, roundsR: seq<map<nat, Round>>)
    requires b.r.Valid() && b.r.Known(left) && b.r.Known(right) && |left| == |right| == |prompts| && left != []
    requires forall i | 0 <= i < |left| :: left[i] !in right && right[i] !in left
    requires forall i | 0 <= i < |left| :: prompts[i] != [] && Fresh(b.r.slots[left[i]]) && Fresh(b.r.slots[right[i]])
    requires forall i | 0 <= i < |left| ::
               && StartsClean(b.r.slots[left[i]], AllSingle(prompts))
               && StartsClean(b.r.slots[right[i]], AllSingle(prompts))
    requires forall r: nat, i: nat, d: seq<Token> :: |change(r, i, d)| == |d|
    modifies b.r
    ensures b.r.Valid() && Untouched(old(b.r.slots), b.r.slots, left + right)
    ensures agree && |roundsL| == |roundsR| == n
    ensures forall i | 0 <= i < |left| ::
              && OnRecord(b.r.batch, prompts[i], bookL.outs, roundsL, left[i], change, i, b.r.spec)
              && OnRecord(b.r.batch, prompts[i], bookR.outs, roundsR, right[i], change, i, b.r.spec)
    ensures SameRounds(left, right, roundsL, roundsR)
    ensures forall i | 0 <= i < |left| ::
              && left[i] in bookL.outs && right[i] in bookR.outs && bookL.outs[left[i]] == bookR.outs[right[i]]
              && bookL.outs[left[i]] == Greedy(b.r.batch, prompts[i], |bookL.outs[left[i]]|)
              && b.r.slots[left[i]].kvLen == b.r.slots[right[i]].kvLen
              && b.r.slots[left[i]].kvLen == b.r.slots[left[i]].syncLen == b.r.slots[right[i]].syncLen
    ensures forall i | 0 <= i < |left| ::
              && left[i] < |b.r.slots| && right[i] < |b.r.slots| && SameState(b.r.slots[left[i]], b.r.slots[right[i]])
              && left[i] in bookL.anchors && right[i] in bookR.anchors
              && bookL.anchors[left[i]] == bookR.anchors[right[i]]
              && left[i] in bookL.drafts && right[i] in bookR.drafts && bookL.drafts[left[i]] == bookR.drafts[right[i]]
  {
    hide AllSingle, Fresh, StartsClean, WellFormed, SameState, OnRecord, AllRecorded, Compared, Twins, Greedy;
    ghost var asked, askedR, hsL, hsR;
    bookL, bookR, asked, askedR := TwinBegin(b, left, right, prompts, change);
    hsL, hsR := asked, askedR;
    roundsL, roundsR := [], [];
    ComparedMeans(b, left, right, prompts, bookL, bookR, asked, askedR, hsL, hsR, roundsL, roundsR, change);
    agree := SameStarts(left, right, bookL, bookR);
    for round := 0 to n
      invariant b.r.Valid() && Untouched(old(b.r.slots), b.r.slots, left + right) && agree && |roundsL| == round
      invariant Compared(b.r, left, right, prompts, bookL, bookR, asked, askedR, hsL, hsR, roundsL, roundsR, change)
    {
      var same;
      same, bookL, bookR, roundsL, roundsR, hsL, hsR :=
        TwinRound(b, left, right, prompts, bookL, bookR, asked, askedR, hsL, hsR, change, roundsL, roundsR);
      agree := agree && same;
    }
    ComparedMeans(b, left, right, prompts, bookL, bookR, asked, askedR, hsL, hsR, roundsL, roundsR, change);
  }

  /** Prefill both sides. */
  method TwinBegin(b: Backend, left: seq<nat>, right: seq<nat>, prompts: seq<seq<Token>>, ghost change: Change)
    returns (bookL: Book, bookR: Book, ghost asked: map<nat, seq<Token>>, ghost askedR: map<nat, seq<Token>>)
    requires b.r.Valid() && b.r.Known(left) && b.r.Known(right) && |left| == |right| == |prompts| && left != []
    requires forall i | 0 <= i < |left| :: left[i] !in right && right[i] !in left
    requires forall i | 0 <= i < |left| :: prompts[i] != [] && Fresh(b.r.slots[left[i]]) && Fresh(b.r.slots[right[i]])
    requires forall i | 0 <= i < |left| ::
               && StartsClean(b.r.slots[left[i]], AllSingle(prompts))
               && StartsClean(b.r.slots[right[i]], AllSingle(prompts))
    modifies b.r
    ensures b.r.Valid() && Untouched(old(b.r.slots), b.r.slots, left + right)
    ensures Compared(b.r, left, right, prompts, bookL, bookR, asked, askedR, asked, askedR, [], [], change)
  {
    hide AllSingle, Fresh, StartsClean, WellFormed, AllRecorded, AllLive;
    bookL, asked := Begin(b, true, left, prompts);
    label begun:
    bookR, askedR := Begin(b, false, right, prompts);
    RecordStarts(b.r.batch, old@begun(b.r.slots), true, left, asked, bookL, asked, change, b.r.spec);
    RecordStarts(b.r.batch, b.r.slots, false, right, askedR, bookR, askedR, change, b.r.spec);
    LiveElsewhere(b.r.batch, old@begun(b.r.slots), b.r.slots, true, left, right, asked, bookL, asked, b.r.spec);
  }

  lemma {:induction false} ComparedMeans(b: Backend, left: seq<nat>, right: seq<nat>, prompts: seq<seq<Token>>,
        bookL: Book, bookR: Book, asked: map<nat, seq<Token>>, askedR: map<nat, seq<Token>>, hsL: map<nat, seq<Token>>,
        hsR: map<nat, seq<Token>>, roundsL: seq<map<nat, Round>>, roundsR: seq<map<nat, Round>>, change: Change)
    requires Compared(b.r, left, right, prompts, bookL, bookR, asked, askedR, hsL, hsR, roundsL, roundsR, change)
    ensures |left| == |right| == |prompts| && SameRounds(left, right, roundsL, roundsR)
    ensures forall i | 0 <= i < |left| ::
              && OnRecord(b.r.batch, prompts[i], bookL.outs, roundsL, left[i], change, i, b.r.spec)
              && OnRecord(b.r.batch, prompts[i], bookR.outs, roundsR, right[i], change, i, b.r.spec)
    ensures forall i | 0 <= i < |left| ::
              && prompts[i] != [] && left[i] in bookL.outs && right[i] in bookR.outs
              && bookL.outs[left[i]] == bookR.outs[right[i]]
              && bookL.outs[left[i]] == Greedy(b.r.batch, prompts[i], |bookL.outs[left[i]]|)
    ensures forall i | 0 <= i < |left| ::
              && left[i] in bookL.anchors && right[i] in bookR.anchors
              && bookL.anchors[left[i]] == bookR.anchors[right[i]]
              && left[i] in bookL.drafts && right[i] in bookR.drafts && bookL.drafts[left[i]] == bookR.drafts[right[i]]
    ensures forall i | 0 <= i < |left| ::
              && left[i] < |b.r.slots| && right[i] < |b.r.slots| && SameState(b.r.slots[left[i]], b.r.slots[right[i]])
              && b.r.slots[left[i]].kvLen == b.r.slots[right[i]].kvLen
              && b.r.slots[left[i]].kvLen == b.r.slots[left[i]].syncLen == b.r.slots[right[i]].syncLen
  {
    hide OnRecord, AllLive, SameState, Greedy, AllRecorded, SameRounds;
    TwinsAgree(b, left, right, prompts, bookL, bookR, asked, askedR, hsL, hsR);
    RecordMeans(b.r.batch, left, prompts, asked, bookL.outs, roundsL, change, b.r.spec);
    RecordMeans(b.r.batch, right, prompts, askedR, bookR.outs, roundsR, change, b.r.spec);
  }

  lemma TwinsAgree(b: Backend, left: seq<nat>, right: seq<nat>, prompts: seq<seq<Token>>, bookL: Book, bookR: Book,
        asked: map<nat, seq<Token>>, askedR: map<nat, seq<Token>>, hsL: map<nat, seq<Token>>, hsR: map<nat, seq<Token>>)
    requires Twins(b.r, left, right, prompts, bookL, bookR, asked, askedR, hsL, hsR)
    ensures |left| == |right| == |prompts| && Covers(left, bookL, asked, hsL) && Covers(right, bookR, askedR, hsR)
    ensures forall i | 0 <= i < |left| ::
              && left[i] in bookL.outs && right[i] in bookR.outs && left[i] in hsL && right[i] in hsR
              && left[i] in bookL.anchors && right[i] in bookR.anchors && left[i] in bookL.drafts
              && right[i] in bookR.drafts
              && bookL.outs[left[i]] == bookR.outs[right[i]] && hsL[left[i]] == hsR[right[i]]
              && bookL.outs[left[i]] == Greedy(b.r.batch, prompts[i], |bookL.outs[left[i]]|)
              && bookL.anchors[left[i]] == bookR.anchors[right[i]] && bookL.drafts[left[i]] == bookR.drafts[right[i]]
              && |bookL.drafts[left[i]]| == b.r.spec
    ensures forall i | 0 <= i < |left| ::
              && left[i] < |b.r.slots| && right[i] < |b.r.slots| && SameState(b.r.slots[left[i]], b.r.slots[right[i]])
              && b.r.slots[left[i]].kvLen == b.r.slots[right[i]].kvLen
              && b.r.slots[left[i]].kvLen == b.r.slots[left[i]].syncLen == b.r.slots[right[i]].syncLen
  {
    hide Live, SameState;
    forall i | 0 <= i < |left|
      ensures prompts[i] != [] && bookL.outs[left[i]] == Greedy(b.r.batch, prompts[i], |bookL.outs[left[i]]|)
      ensures b.r.slots[left[i]].kvLen == b.r.slots[right[i]].kvLen
      ensures b.r.slots[left[i]].kvLen == b.r.slots[left[i]].syncLen == b.r.slots[right[i]].syncLen
      ensures SameState(b.r.slots[left[i]], b.r.slots[right[i]])
      ensures bookL.outs[left[i]] == bookR.outs[right[i]] && hsL[left[i]] == hsR[right[i]]
      ensures bookL.anchors[left[i]] == bookR.anchors[right[i]] && bookL.drafts[left[i]] == bookR.drafts[right[i]]
      ensures |bookL.drafts[left[i]]| == b.r.spec
    {
      LiveServes(b.r.batch, b.r.slots[left[i]], true, prompts[i], bookL.outs[left[i]], hsL[left[i]],
                 bookL.anchors[left[i]], bookL.drafts[left[i]], b.r.spec);
      LiveAgree(b.r.batch, b.r.slots[left[i]], b.r.slots[right[i]], prompts[i], bookL.outs[left[i]],
                bookR.outs[right[i]],
                hsL[left[i]], hsR[right[i]], bookL.anchors[left[i]], bookR.anchors[right[i]], bookL.drafts[left[i]],
                bookR.drafts[right[i]], b.r.spec);
      LiveSameState(b.r.batch, b.r.slots[left[i]], b.r.slots[right[i]], prompts[i], bookL.outs[left[i]], hsL[left[i]],
                    bookL.anchors[left[i]], bookL.drafts[left[i]], b.r.spec);
      LiveLengths(b.r.batch, b.r.slots[left[i]], true, prompts[i], bookL.outs[left[i]], hsL[left[i]],
                  bookL.anchors[left[i]], bookL.drafts[left[i]], b.r.spec);
      LiveLengths(b.r.batch, b.r.slots[right[i]], false, prompts[i], bookR.outs[right[i]], hsR[right[i]],
                  bookR.anchors[right[i]], bookR.drafts[right[i]], b.r.spec);
    }
  }
}
