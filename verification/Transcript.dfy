/**
  What a slot's rounds amount to, told from the prompt alone: every round starts from everything
  the earlier ones committed, and verifies what was made of the proposal it then deserves.
 */
module Transcripts {
  import opened Backends
  import opened Drafting
  import opened Network
  import opened Runners

  /** What is submitted in round `t` for the i-th request in place of its proposal. */
  type Change = (nat, nat, seq<Token>) -> seq<Token>

  function Unchanged(t: nat, i: nat, proposal: seq<Token>): seq<Token> {
    proposal
  }

  /** The first token, then everything the rounds committed, in order. */
  ghost function Output(first: Token, rounds: seq<Round>): (out: seq<Token>)
    ensures out != [] && out[0] == first
  {
    if rounds == [] then [first]
    else Output(first, rounds[..|rounds| - 1]) + rounds[|rounds| - 1].decision.committed
  }

  /** What a slot holds when the last token of its output is still pending. */
  ghost function Held(prompt: seq<Token>, out: seq<Token>): seq<Token>
    requires out != []
  {
    prompt + out[..|out| - 1]
  }

  /** The t-th round really happened: it is the model's own at the history the earlier rounds left,
      over the changed proposal of that history. */
  ghost predicate Happened(net: Net, prompt: seq<Token>, rounds: seq<Round>, t: nat, change: Change, i: nat, k: nat)
    requires prompt != [] && 1 <= k && t < |rounds|
  {
    var out := Output(Next(net, prompt), rounds[..t]);
    var h, anchor := Held(prompt, out), out[|out| - 1];
    Advanced(net, h, anchor, change(t, i, Drafts(net, h, anchor, k)), rounds[t])
  }

  ghost predicate Transcript(net: Net, prompt: seq<Token>, rounds: seq<Round>, change: Change, i: nat, k: nat) {
    prompt != [] && 1 <= k && forall t | 0 <= t < |rounds| :: Happened(net, prompt, rounds, t, change, i, k)
  }

  lemma TranscriptNil(net: Net, prompt: seq<Token>, change: Change, i: nat, k: nat)
    requires prompt != [] && 1 <= k
    ensures Transcript(net, prompt, [], change, i, k) && Output(Next(net, prompt), []) == [Next(net, prompt)]
  {
  }

  lemma OutputSnoc(first: Token, rounds: seq<Round>, round: Round)
    ensures Output(first, rounds + [round]) == Output(first, rounds) + round.decision.committed
  {
    assert (rounds + [round])[..|rounds|] == rounds;
  }

  /** Whether a round happened depends on the rounds up to it only. */
  lemma {:induction false} HappenedAlike(net: Net, prompt: seq<Token>, a: seq<Round>, b: seq<Round>, t: nat,
        change: Change, i: nat, k: nat)
    requires prompt != [] && 1 <= k && t < |a| && t < |b| && a[..t] == b[..t] && a[t] == b[t]
    requires Happened(net, prompt, a, t, change, i, k)
    ensures Happened(net, prompt, b, t, change, i, k)
  {
    hide Next, Advanced, Output, Held, Drafts;
  }

  lemma {:induction false} HappenedLast(net: Net, prompt: seq<Token>, rounds: seq<Round>, t: nat, change: Change,
        i: nat, k: nat, h: seq<Token>, anchor: Token)
    requires prompt != [] && 1 <= k && h != [] && t + 1 == |rounds|
    requires h + [anchor] == prompt + Output(Next(net, prompt), rounds[..t])
    requires Advanced(net, h, anchor, change(t, i, Drafts(net, h, anchor, k)), rounds[t])
    ensures Happened(net, prompt, rounds, t, change, i, k)
  {
    hide Next, Advanced, Output, Held, Drafts;
    HeldIs(prompt, Output(Next(net, prompt), rounds[..t]), h, anchor);
  }

  /** One more round. */
  lemma {:induction false} TranscriptSnoc(net: Net, prompt: seq<Token>, rounds: seq<Round>, round: Round,
        change: Change, i: nat, k: nat, h: seq<Token>, anchor: Token)
    requires Transcript(net, prompt, rounds, change, i, k) && h != []
    requires h + [anchor] == prompt + Output(Next(net, prompt), rounds)
    requires Advanced(net, h, anchor, change(|rounds|, i, Drafts(net, h, anchor, k)), round)
    ensures Transcript(net, prompt, rounds + [round], change, i, k)
    ensures Output(Next(net, prompt), rounds + [round])
         == Output(Next(net, prompt), rounds) + round.decision.committed
  {
    hide Next, Advanced, Output, Happened, Drafts;
    var longer, n := rounds + [round], |rounds|;
    assert longer[..n] == rounds;
    OutputSnoc(Next(net, prompt), rounds, round);
    HappenedLast(net, prompt, longer, n, change, i, k, h, anchor);
    forall t | 0 <= t < n ensures Happened(net, prompt, longer, t, change, i, k) {
      assert longer[..t] == rounds[..t];
      HappenedAlike(net, prompt, rounds, longer, t, change, i, k);
    }
  }

  lemma {:induction false} HeldIs(prompt: seq<Token>, out: seq<Token>, h: seq<Token>, anchor: Token)
    requires out != [] && h + [anchor] == prompt + out
    ensures h == Held(prompt, out) && anchor == out[|out| - 1]
  {
    var all := prompt + out;
    assert all[|all| - 1] == out[|out| - 1] && (h + [anchor])[|h|] == anchor;
    assert h == all[..|all| - 1] == prompt + out[..|out| - 1];
  }

  // ---------------------------------------------------------------------------
  // The rounds of a whole batch, one map a round.
  // ---------------------------------------------------------------------------

  /** Slot s took part in every round. */
  predicate Attends(rounds: seq<map<nat, Round>>, s: nat) {
    forall t | 0 <= t < |rounds| :: s in rounds[t]
  }

  ghost function Column(rounds: seq<map<nat, Round>>, s: nat): (c: seq<Round>)
    requires Attends(rounds, s)
    ensures |c| == |rounds| && forall t | 0 <= t < |rounds| :: c[t] == rounds[t][s]
  {
    seq(|rounds|, t requires 0 <= t < |rounds| => rounds[t][s])
  }

  lemma ColumnSnoc(rounds: seq<map<nat, Round>>, more: map<nat, Round>, s: nat)
    requires Attends(rounds, s) && s in more
    ensures Attends(rounds + [more], s) && Column(rounds + [more], s) == Column(rounds, s) + [more[s]]
  {
  }
}
