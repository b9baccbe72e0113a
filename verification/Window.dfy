/**
  The window of recent text that the verdict's pattern test reads, and what it really holds.
 */
module Windows {
  import opened AcceptReject
  import opened Backends
  import opened Drafting
  import opened Ledgers
  import opened Network
  import opened Outcomes
  import opened Repetition
  import opened Rosters
  import opened Runners
  import opened ServingCores
  import opened Slots
  import opened Speculation
  import opened Verdicts

  /** Everything a request has been served before a round, its first token included. */
  function Served(a: Active): seq<Token> {
    [a.first] + a.tokens
  }

  /** Two windows over the same tokens, one of them with the first token dropped and the last
      repeated, agree exactly when the window holds nothing but that last token. */
  lemma ShiftedWindow(out: seq<Token>, fed: seq<Token>, w: nat)
    requires out != []
    ensures var x := out[|out| - 1];
            LastOf(out[1..] + [x] + fed, w) == LastOf(out + fed, w) <==>
            forall i | 0 <= i < |out| && i >= |out + fed| - w :: out[i] == x
  {
    var x := out[|out| - 1];
    var left, right := out[1..] + [x] + fed, out + fed;
    var cut := if |right| <= w then 0 else |right| - w;
    assert forall i | 0 <= i < |out| - 1 :: left[i] == right[i + 1];
    if LastOf(left, w) == LastOf(right, w) {
      forall i | cut <= i < |right| ensures left[i] == right[i] {
        assert LastOf(left, w)[i - cut] == LastOf(right, w)[i - cut];
      }
      var i := |out| - 1;
      while i > cut
        invariant 0 <= i < |out| && forall m | i <= m < |out| && cut <= m :: out[m] == x
      {
        i := i - 1;
        assert left[i] == right[i];
      }
    }
    if forall i | 0 <= i < |out| && i >= |out + fed| - w :: out[i] == x {
      forall i | cut <= i < |right| ensures left[i] == right[i] {}
      assert left[cut..] == right[cut..];
    }
  }

  /** Between rounds the pending anchor is the last token served. */
  lemma AnchorIsLast(single: Net, batch: Net, spec: nat, slots: seq<Slot>, a: Active)
    requires Lockstep(single, batch, spec, slots, a)
    ensures Served(a)[|a.tokens|] == a.anchor
  {
    hide Serving, InPlace, IsGreedy, HistoryOf;
    AnchorEnds(a.req.prompt, Served(a), HistoryOf(a), a.anchor);
  }

  /** The recorded tail is the end of what was served exactly when every served token that the
      window reaches is the pending anchor. */
  lemma TailIsServedIff(single: Net, batch: Net, spec: nat, slots: seq<Slot>, a: Active, round: Round)
    requires Lockstep(single, batch, spec, slots, a)
    ensures var fed := round.decision.committed[..round.decision.accepted];
            Tail(a, round) == LastOf(Served(a) + fed, TAIL_TOKENS) <==>
            forall i | 0 <= i < |Served(a)| && i >= |Served(a) + fed| - TAIL_TOKENS :: Served(a)[i] == a.anchor
  {
    hide Lockstep, LastOf;
    var fed := round.decision.committed[..round.decision.accepted];
    AnchorIsLast(single, batch, spec, slots, a);
    ShiftedWindow(Served(a), fed, TAIL_TOKENS);
    assert Served(a)[1..] == a.tokens;
    assert a.tokens + RealNew(a.anchor, round.decision) == a.tokens + [a.anchor] + fed;
  }

  /** From a request's second round on, the recorded tail is not the served text: the tokens
      committed so far already end with the pending anchor, and the round's fed tokens start
      with it again. */
  lemma TailDoublesAnchor(single: Net, batch: Net, spec: nat, slots: seq<Slot>, a: Active, round: Round)
    requires Lockstep(single, batch, spec, slots, a) && a.tokens != []
    ensures a.tokens[|a.tokens| - 1] == a.anchor
    ensures a.tokens + RealNew(a.anchor, round.decision)
         == a.tokens[..|a.tokens| - 1] + [a.anchor, a.anchor] + round.decision.committed[..round.decision.accepted]
  {
    hide Lockstep, RealNew;
    AnchorIsLast(single, batch, spec, slots, a);
    RealNewStarts(a.tokens, a.anchor, round);
  }

  lemma AnchorEnds(prompt: seq<Token>, out: seq<Token>, h: seq<Token>, anchor: Token)
    requires h + [anchor] == prompt + out && out != []
    ensures out[|out| - 1] == anchor
  {
    assert (h + [anchor])[|h|] == anchor && (prompt + out)[|prompt| + |out| - 1] == out[|out| - 1];
  }

  lemma RealNewStarts(tokens: seq<Token>, anchor: Token, round: Round)
    requires tokens != [] && tokens[|tokens| - 1] == anchor
    ensures tokens + RealNew(anchor, round.decision)
         == tokens[..|tokens| - 1] + [anchor, anchor] + round.decision.committed[..round.decision.accepted]
  {
    assert tokens == tokens[..|tokens| - 1] + [anchor];
  }

  /** So whenever the anchor's own text is a dozen characters or more, the pattern test of a
      round out of tolerance succeeds, whatever was actually served. */
  lemma LongAnchorLooksRepetitive(single: Net, batch: Net, spec: nat, slots: seq<Slot>, a: Active, round: Round,
        row: Row, decode: Decoder)
    requires Lockstep(single, batch, spec, slots, a) && a.tokens != []
    requires RowIsTrue(single, batch, row, Sighting(a, round)) && !row.report.ok
    requires |RealNew(a.anchor, round.decision)| < TAIL_TOKENS
    requires forall x, y :: decode(x + y) == decode(x) + decode(y)
    requires |decode([a.anchor])| >= MIN_REPEAT
    ensures PatternOk(row, decode)
  {
    hide Lockstep, Judge, Next, HistoryOf, Detected;
    TailDoublesAnchor(single, batch, spec, slots, a, round);
    var fed := round.decision.committed[..round.decision.accepted];
    var all := a.tokens[..|a.tokens| - 1] + [a.anchor, a.anchor] + fed;
    var tail := Tail(a, round);
    assert tail == LastOf(all, TAIL_TOKENS);
    var cut := |tail| - |fed| - 2;
    var before := tail[..cut];
    assert tail == before + [a.anchor] + [a.anchor] + fed;
    assert decode(tail) == decode(before) + decode([a.anchor]) + decode([a.anchor]) + decode(fed);
    DoubledPhrase(decode(before), decode([a.anchor]), decode(fed), MIN_REPEAT);
  }

  // ---------------------------------------------------------------------------
  // A concrete round that the pattern test is wrong about.
  // ---------------------------------------------------------------------------

  /** A model that counts what it reads and says 2 after three tokens, 1 otherwise. */
  ghost function Echo(): (w: Net) {
    Weights(3,
            (g: Gdn, kvs: seq<Kv>, t: Token) => Cell(g + 1, t, g + 1),
            (h: Hidden) => if h == 3 then [0.0, 0.0, 1.0] else [0.0, 1.0, 0.0],
            (t: Token, h: Hidden, pos: nat) => t,
            (t: Token, h: Hidden, pos: nat, visible: seq<Kv>) => 0,
            (h: Hidden) => [1.0, 0.0, 0.0])
  }

  /** A reference that is sure of 0 whatever it reads. */
  ghost function Stern(): (w: Net) {
    Echo().(head := (h: Hidden) => [10.0, 0.0, 0.0])
  }

  function TextOf(t: Token): string {
    if t == 1 then "x" else if t == 2 then "abcdefghijkl" else "."
  }

  /** A decoder that spells token by token. */
  function Spell(toks: seq<Token>): string {
    if toks == [] then "" else Spell(toks[..|toks| - 1]) + TextOf(toks[|toks| - 1])
  }

  ghost function MisledSlots(): seq<Slot> {
    var h := [0, 0, 1];
    var kvs, gdn := Fold(Echo(), h).kvs, Fold(Echo(), h).gdn;
    [Slot(kvs, 3, [gdn, gdn], 1, true, DraftKvs(Echo(), h, 2), 3, 0, 0, {}),
     Slot(Fold(Stern(), h).kvs, 3, [Fold(Stern(), h).gdn, BLANK], 1, true, [], 0, 0, 0, {})]
  }

  function Misled(): Active {
    Active(0, 1, Request(7, 0, [0, 0], 8), 2, [0], 1, [2], 0)
  }

  function MisledRound(): Round {
    Round(Ruling(0, [1], Some(0)), 1, [0])
  }

  function MisledRow(): Row {
    Row(1, 7, Report(0, 1, false, 10.0, false), Some([2, 2]))
  }

  lemma {:induction false} EchoFold(h: seq<Token>)
    ensures Fold(Echo(), h).gdn == |h| && Fold(Stern(), h).gdn == |h|
  {
    if h != [] {
      EchoFold(h[..|h| - 1]);
    }
  }

  lemma LargestIs(l: Logits, t: nat)
    requires t < |l| && forall i | 0 <= i < |l| && i != t :: l[i] < l[t]
    ensures Argmax(l) == t
  {
    hide Argmax;
    assert l[t] <= l[Argmax(l)];
  }

  lemma EchoNext(h: seq<Token>)
    requires h != []
    ensures Next(Echo(), h) == if |h| == 3 then 2 else 1
    ensures Judge(Stern(), h, 1) == Report(0, 1, false, 10.0, false)
  {
    hide Fold, Argmax;
    EchoFold(h[..|h| - 1]);
    assert HiddenOf(Echo(), h) == |h|;
    LargestIs(Echo().head(|h|), if |h| == 3 then 2 else 1);
    LargestIs([10.0, 0.0, 0.0], 0);
  }

  lemma MisledRowIsTrue()
    ensures RowIsTrue(Stern(), Echo(), MisledRow(), Sighting(Misled(), MisledRound())) && !MisledRow().report.ok
  {
    hide Next, Judge;
    EchoNext([0, 0]);
    EchoNext([0, 0, 1, 2]);
    assert HistoryOf(Moved(Misled(), MisledRound())) == [0, 0, 1, 2];
    assert [2] + RealNew(2, MisledRound().decision) == [2, 2];
  }

  lemma MisledRoundIsReal()
    ensures HistoryOf(Misled()) == [0, 0, 1]
    ensures Advanced(Echo(), [0, 0, 1], 2, [0], MisledRound())
  {
    hide Next, Argmax, Fold, HiddenOf;
    var h := [0, 0, 1];
    assert HistoryOf(Misled()) == h;
    EchoNext(h + [2]);
    var p := Predictions(Echo(), h, [2, 0]);
    assert [2] + [0] == [2, 0];
    assert p[0] == Next(Echo(), h + [2, 0][..1]) && [2, 0][..1] == [2];
    assert MatchLength([2, 0], p) == 0;
    assert [2, 0][1..1] == [];
    EchoDrafts(h + [2], 1);
  }

  lemma EchoDrafts(h: seq<Token>, anchor: Token)
    requires h != []
    ensures Drafts(Echo(), h, anchor, 1) == [0]
  {
    hide Argmax, HiddenOf, DraftKvs;
    LargestIs([1.0, 0.0, 0.0], 0);
  }

  lemma MisledInLockstep()
    ensures Lockstep(Stern(), Echo(), 1, MisledSlots(), Misled())
  {
    hide Next, Argmax, Fold, HiddenOf, Drafts, DraftKvs;
    var h, out := [0, 0, 1], [1, 2];
    assert HistoryOf(Misled()) == h;
    EchoNext([0, 0]);
    EchoNext(h);
    EchoDrafts(h, 2);
    var kvs, skvs, d := Fold(Echo(), h).kvs, Fold(Stern(), h).kvs, DraftKvs(Echo(), h, 2);
    assert kvs[..3] == kvs && skvs[..3] == skvs && d[..3] == d;
    assert [1] + [2] == out && h + [2] == [0, 0] + out;
    assert [0, 0] + out[..0] == [0, 0] && [0, 0] + out[..1] == h;
  }

  lemma SpellTwo(a: Token, b: Token)
    ensures Spell([a]) == TextOf(a) && Spell([a, b]) == TextOf(a) + TextOf(b)
  {
    assert [a, b][..1] == [a] && [a][..0] == [];
  }

  lemma {:induction false} SpellAppend(x: seq<Token>, y: seq<Token>)
    ensures Spell(x + y) == Spell(x) + Spell(y)
  {
    hide TextOf;
    if y == [] {
      assert x + y == x;
    } else {
      var front, t := y[..|y| - 1], y[|y| - 1];
      SpellAppend(x, front);
      assert (x + y)[..|x + y| - 1] == x + front && (x + y)[|x + y| - 1] == t;
      assert Spell(x) + Spell(front) + TextOf(t) == Spell(x) + (Spell(front) + TextOf(t));
    }
  }

  lemma MisledTail()
    ensures PatternOk(MisledRow(), Spell) && TokensOk(MisledRow(), Spell)
  {
    hide Spell, Detected, PatternOk, Lockstep, RowIsTrue;
    MisledInLockstep();
    MisledRowIsTrue();
    SpellTwo(2, 2);
    SpellTwo(0, 1);
    SpellTwo(1, 2);
    forall x: seq<Token>, y: seq<Token> ensures Spell(x + y) == Spell(x) + Spell(y) {
      SpellAppend(x, y);
    }
    LongAnchorLooksRepetitive(Stern(), Echo(), 1, MisledSlots(), Misled(), MisledRound(), MisledRow(), Spell);
  }

  lemma MisledServed()
    ensures !Repetitive(Spell(LastOf(Served(Misled()), TAIL_TOKENS)), MIN_REPEAT)
  {
    hide Spell, HasRepeat, Repetitive;
    var text := Spell([1, 2]);
    assert Served(Misled()) == [1, 2];
    SpellTwo(1, 2);
    DetectorIsExact(text, MIN_REPEAT);
    NoRepeat(text);
  }

  lemma NoRepeat(text: string)
    requires |text| == MIN_REPEAT + 1 && text[0] != text[1]
    ensures !HasRepeat(text, MIN_REPEAT)
  {
    assert Sub(text, 0, MIN_REPEAT)[0] != Sub(text, 1, MIN_REPEAT)[0];
  }

  /** The request is in lockstep, the round is the model's own, the row is true and out of
      tolerance; both text tests accept it, although the text really served holds no repeat of
      the required length. */
  lemma PatternCanBeWrong()
    ensures Lockstep(Stern(), Echo(), 1, MisledSlots(), Misled())
    ensures Advanced(Echo(), HistoryOf(Misled()), 2, [0], MisledRound())
    ensures RowIsTrue(Stern(), Echo(), MisledRow(), Sighting(Misled(), MisledRound())) && !MisledRow().report.ok
    ensures PatternOk(MisledRow(), Spell) && TokensOk(MisledRow(), Spell)
    ensures !Repetitive(Spell(LastOf(Served(Misled()), TAIL_TOKENS)), MIN_REPEAT)
  {
    hide *;
    MisledInLockstep();
    MisledRoundIsReal();
    MisledRowIsTrue();
    MisledTail();
    MisledServed();
  }
}
