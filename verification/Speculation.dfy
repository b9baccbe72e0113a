/**
  One speculative round seen from a request's token history alone.  Every engine below is
  shown to compute exactly these functions of the history, so nothing else a slot holds can
  influence what it commits.
 */
module Speculation {
  import opened AcceptReject
  import opened Network
  import opened Outcomes

  /** What the target predicts after each draft position. */
  function Predictions(net: Net, h: seq<Token>, draft: seq<Token>): (p: seq<Token>)
    ensures |p| == |draft|
    ensures forall j | 0 <= j < |draft| :: p[j] == Next(net, h + draft[..j + 1])
  {
    if draft == [] then []
    else
      var front := draft[..|draft| - 1];
      var p := Predictions(net, h, front);
      assert forall j | 0 <= j < |front| :: p[j] == Next(net, h + draft[..j + 1]) by {
        forall j | 0 <= j < |front| ensures p[j] == Next(net, h + draft[..j + 1]) {
          assert front[..j + 1] == draft[..j + 1];
        }
      }
      assert draft[..|draft|] == draft;
      p + [Next(net, h + draft)]
  }

  /** Logits of a run of hidden outputs. */
  function Heads(net: Net, hids: seq<Hidden>): (rows: seq<Logits>)
    ensures |rows| == |hids|
    ensures forall j | 0 <= j < |hids| :: rows[j] == net.head(hids[j])
  {
    if hids == [] then [] else Heads(net, hids[..|hids| - 1]) + [net.head(hids[|hids| - 1])]
  }

  lemma ChoicesArePredictions(net: Net, h: seq<Token>, draft: seq<Token>, hids: seq<Hidden>)
    requires HiddensAlong(net, h, draft, hids)
    ensures Choices(Heads(net, hids)) == Predictions(net, h, draft)
  {
    hide HiddenOf, Argmax;
    var a, b := Choices(Heads(net, hids)), Predictions(net, h, draft);
    forall j | 0 <= j < |draft| ensures a[j] == b[j] {
      assert hids[j] == HiddenOf(net, h + draft[..j + 1]);
      assert Next(net, h + draft[..j + 1]) == Argmax(net.head(hids[j]));
    }
  }

  /** The decision a history deserves for a pending anchor and any drafts whatever. */
  function Decide(net: Net, h: seq<Token>, anchor: Token, drafts: seq<Token>): (d: Decision)
    ensures d.accepted <= |drafts|
  {
    Verdict([anchor] + drafts, Predictions(net, h, [anchor] + drafts))
  }

  /** The tokens whose cache entries a decision makes real: the anchor and the accepted
      drafts, but not the recovery token, which is fed back as the next anchor. */
  function RealNew(anchor: Token, d: Decision): seq<Token>
  {
    [anchor] + d.committed[..d.accepted]
  }

  function NextAnchor(d: Decision): Token
  {
    d.committed[d.accepted]
  }

  /** A decision commits the target's own greedy tokens, accepts as many drafts as are
      greedy and not one fewer, and leaves the target's own choice as next anchor. */
  lemma DecisionIsLossless(net: Net, h: seq<Token>, anchor: Token, drafts: seq<Token>)
    ensures var d := Decide(net, h, anchor, drafts);
            && IsGreedy(net, h + [anchor], d.committed)
            && d.committed[..d.accepted] == drafts[..d.accepted]
            && (d.accepted < |drafts| ==> drafts[d.accepted] != Next(net, h + [anchor] + drafts[..d.accepted]))
            && RealNew(anchor, d) == ([anchor] + drafts)[..d.accepted + 1]
            && NextAnchor(d) == Next(net, h + RealNew(anchor, d))
  {
    hide Next, MatchLength, Predictions, Verdict;
    var draft := [anchor] + drafts;
    var p := Predictions(net, h, draft);
    var d := Decide(net, h, anchor, drafts);
    VerdictIsTheOnlyObedient(draft, p, d);
    var n := d.accepted;
    assert draft[1..n + 1] == drafts[..n];
    assert d.committed[..n] == p[..n] == drafts[..n];
    forall i | 0 <= i < n + 1
      ensures d.committed[i] == Next(net, h + [anchor] + d.committed[..i])
    {
      assert d.committed[..i] == drafts[..i];
      assert draft[..i + 1] == [anchor] + drafts[..i];
      assert h + draft[..i + 1] == h + [anchor] + drafts[..i];
    }
    assert RealNew(anchor, d) == draft[..n + 1];
    if n < |drafts| {
      assert p[n] != draft[n + 1] == drafts[n];
      assert h + draft[..n + 1] == h + [anchor] + drafts[..n];
    }
  }

  /** Corrupting position p of a draft cannot change any prediction up to p, so a forced
      reject of a draft that was fine through p commits exactly its first p + 1 tokens. */
  lemma ForcedRejectCommits(net: Net, h: seq<Token>, anchor: Token, drafts: seq<Token>, p: nat, v: Token)
    requires p < |drafts| && FirstUnused(drafts, 100 + p, v)
    ensures var was, now := Decide(net, h, anchor, drafts), Decide(net, h, anchor, drafts[p := v]);
            && (was.accepted > p ==> now == Ruling(p, drafts[..p + 1], Some(p)))
            && (was.accepted < p ==> now == was)
            && (now.rejectedAt == Some(p) <==>
                was.accepted >= p && v != Next(net, h + [anchor] + drafts[..p]))
  {
    hide Next, Verdict;
    var a, b := [anchor] + drafts, [anchor] + drafts[p := v];
    var pa, pb := Predictions(net, h, a), Predictions(net, h, b);
    forall i | 0 <= i <= p ensures pa[i] == pb[i] {
      assert a[..i + 1] == b[..i + 1];
    }
    assert h + a[..p + 1] == h + [anchor] + drafts[..p];
    ForcedReject(anchor, drafts, p, v, pa, pb);
  }
}
