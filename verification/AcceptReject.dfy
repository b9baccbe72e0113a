/**
  The greedy accept/reject rule of speculative decoding.

  A draft is the pending anchor followed by K proposed tokens.  Verify position p
  predicts what follows draft[p]; it is compared with draft[p + 1] while p < K, and the
  prediction at K is the bonus token when every comparison passed.
 */
module AcceptReject {
  import opened Batches
  import opened Network
  import opened Outcomes

  datatype Ruling = Ruling(accepted: nat, committed: seq<Token>, rejectedAt: Option<nat>)

  /** A round always commits its accepted drafts plus one token of the target's own. */
  type Decision = r: Ruling | |r.committed| == r.accepted + 1 witness Ruling(0, [0], None)

  datatype Complaint = NoAnchor | TooFewPredictions

  /** How many proposed tokens match before the first mismatch. */
  function MatchLength(draft: seq<Token>, predicted: seq<Token>): (n: nat)
    requires 1 <= |draft| <= |predicted|
    ensures n < |draft|
    ensures forall p | 0 <= p < n :: predicted[p] == draft[p + 1]
    ensures n < |draft| - 1 ==> predicted[n] != draft[n + 1]
  {
    MatchFrom(draft, predicted, 0)
  }

  function MatchFrom(draft: seq<Token>, predicted: seq<Token>, p: nat): (n: nat)
    requires p < |draft| <= |predicted|
    ensures p <= n < |draft|
    ensures forall q | p <= q < n :: predicted[q] == draft[q + 1]
    ensures n < |draft| - 1 ==> predicted[n] != draft[n + 1]
    decreases |draft| - p
  {
    if p == |draft| - 1 || predicted[p] != draft[p + 1] then p
    else MatchFrom(draft, predicted, p + 1)
  }

  /** The accepted drafts plus exactly one token of the target's own. */
  function Verdict(draft: seq<Token>, predicted: seq<Token>): (d: Decision)
    requires 1 <= |draft| <= |predicted|
    ensures d.accepted < |draft|
  {
    var n := MatchLength(draft, predicted);
    Ruling(n, draft[1..n + 1] + [predicted[n]], if n < |draft| - 1 then Some(n) else None)
  }

  /** The rule said without an algorithm: everything committed is what the target
      predicted, it all matched except possibly the last token, and the draft was cut only
      at a real mismatch. */
  ghost predicate Obeys(draft: seq<Token>, predicted: seq<Token>, d: Decision)
    requires 1 <= |draft| <= |predicted|
  {
    && d.accepted < |draft|
    && d.committed == predicted[..d.accepted + 1]
    && draft[1..d.accepted + 1] == predicted[..d.accepted]
    && (d.rejectedAt == Some(d.accepted) || d.rejectedAt == None)
    && (d.rejectedAt == None <==> d.accepted == |draft| - 1)
    && (d.rejectedAt != None ==> predicted[d.accepted] != draft[d.accepted + 1])
  }

  /** `n` proposals match and the next one, if any, does not. */
  ghost predicate Matches(draft: seq<Token>, predicted: seq<Token>, n: nat)
    requires 1 <= |draft| <= |predicted|
  {
    && n < |draft|
    && (forall p | 0 <= p < n :: predicted[p] == draft[p + 1])
    && (n < |draft| - 1 ==> predicted[n] != draft[n + 1])
  }

  lemma MatchIsUnique(draft: seq<Token>, predicted: seq<Token>, n: nat)
    requires 1 <= |draft| <= |predicted| && Matches(draft, predicted, n)
    ensures n == MatchLength(draft, predicted)
  {
  }

  /** The verdict obeys the rule, and nothing else does. */
  lemma VerdictIsTheOnlyObedient(draft: seq<Token>, predicted: seq<Token>, d: Decision)
    requires 1 <= |draft| <= |predicted|
    ensures Obeys(draft, predicted, d) <==> d == Verdict(draft, predicted)
  {
    var n := MatchLength(draft, predicted);
    assert draft[1..n + 1] == predicted[..n];
    assert predicted[..n + 1] == predicted[..n] + [predicted[n]];
    assert Obeys(draft, predicted, Verdict(draft, predicted));
    if Obeys(draft, predicted, d) {
      forall p | 0 <= p < d.accepted ensures predicted[p] == draft[p + 1] {
        assert draft[1..d.accepted + 1][p] == predicted[..d.accepted][p];
      }
      MatchIsUnique(draft, predicted, d.accepted);
    }
  }

  /** A verdict looks at no prediction past the one it ends on. */
  lemma VerdictReadsOnlyItsPrefix(draft: seq<Token>, draft': seq<Token>, predicted: seq<Token>, predicted': seq<Token>,
        n: nat)
    requires 1 <= |draft| == |draft'| <= |predicted| && |draft| <= |predicted'|
    requires n < |draft| && predicted[..n + 1] == predicted'[..n + 1]
    requires n == Verdict(draft, predicted).accepted
    requires draft[1..n + 1] == draft'[1..n + 1]
    requires n < |draft| - 1 ==> draft'[n + 1] != predicted'[n]
    ensures Verdict(draft', predicted') == Verdict(draft, predicted)
  {
    var v := Verdict(draft, predicted);
    VerdictIsTheOnlyObedient(draft, predicted, v);
    assert predicted[n] == predicted[..n + 1][n] == predicted'[n];
    assert predicted'[..n] == predicted'[..n + 1][..n] == predicted[..n];
    assert Obeys(draft', predicted', v);
    VerdictIsTheOnlyObedient(draft', predicted', v);
  }

  /** The sequential rule, stopping at the first mismatch. */
  method DetermineFromPredictions(draft: seq<Token>, predicted: seq<Token>)
    returns (r: Result<Decision, Complaint>)
    ensures |draft| == 0 ==> r == Err(NoAnchor)
    ensures |draft| > |predicted| ==> r.Err?
    ensures 1 <= |draft| <= |predicted| ==> r == Ok(Verdict(draft, predicted))
  {
    if |draft| == 0 {
      return Err(NoAnchor);
    }
    var k := |draft| - 1;
    if |predicted| < k + 1 {
      return Err(TooFewPredictions);
    }
    var committed: seq<Token> := [];
    for p := 0 to k
      invariant committed == draft[1..p + 1]
      invariant MatchFrom(draft, predicted, 0) == MatchFrom(draft, predicted, p)
    {
      if predicted[p] == draft[p + 1] {
        committed := committed + [draft[p + 1]];
      } else {
        committed := committed + [predicted[p]];
        return Ok(Ruling(p, committed, Some(p)));
      }
    }
    committed := committed + [predicted[k]];
    return Ok(Ruling(k, committed, None));
  }

  /** Greedy predictions of a run of logits rows. */
  function Choices(rows: seq<Logits>): (t: seq<Token>)
    ensures |t| == |rows|
    ensures forall i | 0 <= i < |rows| :: t[i] == Argmax(rows[i])
  {
    if rows == [] then [] else Choices(rows[..|rows| - 1]) + [Argmax(rows[|rows| - 1])]
  }

  /** Predictions past the draft's own length play no part. */
  lemma VerdictIgnoresExtra(draft: seq<Token>, predicted: seq<Token>)
    requires 1 <= |draft| <= |predicted|
    ensures Verdict(draft, predicted[..|draft|]) == Verdict(draft, predicted)
  {
    hide MatchLength;
    MatchIsUnique(draft, predicted, MatchLength(draft, predicted[..|draft|]));
  }

  method DetermineAcceptReject(draft: seq<Token>, rows: seq<Logits>)
    returns (r: Result<Decision, Complaint>)
    ensures |draft| == 0 || |draft| > |rows| ==> r.Err?
    ensures 1 <= |draft| <= |rows| ==> r == Ok(Verdict(draft, Choices(rows)))
  {
    hide Verdict, Choices;
    var shown := if |draft| <= |rows| then rows[..|draft|] else rows;
    r := DetermineFromPredictions(draft, Choices(shown));
    if 1 <= |draft| <= |rows| {
      VerdictIgnoresExtra(draft, Choices(rows));
      assert Choices(shown) == Choices(rows)[..|draft|];
    }
  }

  /** One request of the vectorised rule: the running AND over the matches is summed. */
  method DecideRow(draft: seq<Token>, predicted: seq<Token>) returns (d: Decision)
    requires 1 <= |draft| == |predicted|
    ensures d == Verdict(draft, predicted)
  {
    hide MatchLength;
    var k, still, n := |draft| - 1, true, 0;
    for p := 0 to k
      invariant n <= p && (still <==> n == p)
      invariant forall q | 0 <= q < n :: predicted[q] == draft[q + 1]
      invariant !still ==> predicted[n] != draft[n + 1]
    {
      still := still && predicted[p] == draft[p + 1];
      n := n + if still then 1 else 0;
    }
    MatchIsUnique(draft, predicted, n);
    d := Ruling(n, draft[1..n + 1] + [predicted[n]], if n < k then Some(n) else None);
  }

  ghost predicate Decided(draft: seq<Token>, rows: seq<Logits>, d: Decision) {
    1 <= |draft| == |rows| && d == Verdict(draft, Choices(rows))
  }

  /** The vectorised rule for a whole batch; predictions come in request-then-position
      order.  It agrees with the sequential rule on every request. */
  method DetermineBatch(slots: seq<nat>, drafts: map<nat, seq<Token>>, rows: seq<Logits>, k: nat)
    returns (decisions: map<nat, Decision>)
    requires forall s | s in slots :: s in drafts && |drafts[s]| == k + 1
    requires forall i, j | 0 <= i < j < |slots| :: slots[i] != slots[j]
    requires |rows| == |slots| * (k + 1)
    ensures decisions.Keys == set s | s in slots
    ensures forall i | 0 <= i < |slots| :: Decided(drafts[slots[i]], Block(rows, i, k + 1), decisions[slots[i]])
  {
    hide Verdict, Choices, Block;
    decisions := map[];
    for i := 0 to |slots|
      invariant decisions.Keys == set s | s in slots[..i]
      invariant forall j | 0 <= j < i :: slots[j] in decisions
      invariant forall j | 0 <= j < i :: Decided(drafts[slots[j]], Block(rows, j, k + 1), decisions[slots[j]])
    {
      var s := slots[i];
      BlockFits(rows, i, |slots|, k + 1);
      var d := DecideRow(drafts[s], Choices(Block(rows, i, k + 1)));
      decisions := decisions[s := d];
      assert slots[..i + 1] == slots[..i] + [s];
    }
    assert slots[..|slots|] == slots;
  }

  // ---------------------------------------------------------------------------
  // Forced rejects: corrupt one draft position so that verification stops there.
  // ---------------------------------------------------------------------------

  /** `v` is the first value at or after `from` that the drafts do not use. */
  ghost predicate FirstUnused(drafts: seq<Token>, from: nat, v: nat) {
    from <= v && v !in drafts && forall w | from <= w < v :: w in drafts
  }

  method DecoyAt(drafts: seq<Token>, position: nat) returns (out: seq<Token>)
    requires position < |drafts|
    ensures |out| == |drafts| && FirstUnused(drafts, 100 + position, out[position])
    ensures out == drafts[position := out[position]]
  {
    var decoy := 100 + position;
    while decoy in drafts
      invariant 100 + position <= decoy
      invariant forall w | 100 + position <= w < decoy :: w in drafts
      decreases set t | t in drafts && decoy <= t
    {
      ghost var before := set t | t in drafts && decoy <= t;
      ghost var after := set t | t in drafts && decoy + 1 <= t;
      assert decoy in before && decoy !in after && after <= before;
      decoy := decoy + 1;
    }
    out := drafts[position := decoy];
  }

  /** Where verification stops once position p of a draft is replaced. */
  lemma CorruptedMatch(draft: seq<Token>, draft': seq<Token>, predicted: seq<Token>, predicted': seq<Token>, p: nat)
    requires p + 1 < |draft| == |draft'| && |draft| <= |predicted| && |draft| <= |predicted'|
    requires forall i | 0 <= i <= p :: predicted[i] == predicted'[i] && draft[i] == draft'[i]
    ensures var n, m := MatchLength(draft, predicted), MatchLength(draft', predicted');
            && (n < p ==> m == n)
            && (n >= p ==> m >= p && (m == p <==> draft'[p + 1] != predicted[p]))
  {
    hide MatchLength;
    var n := MatchLength(draft, predicted);
    assert forall i | 0 <= i < n && i < p :: draft'[i + 1] == draft[i + 1] == predicted[i];
    if n < p {
      assert draft'[n + 1] == draft[n + 1];
      MatchIsUnique(draft', predicted', n);
    } else if draft'[p + 1] != predicted[p] {
      MatchIsUnique(draft', predicted', p);
    }
  }

  /** What a forced reject does, in all cases.  `predicted'` may differ from `predicted`
      after position p, because the target reads the corrupted token there. */
  lemma ForcedReject(anchor: Token, drafts: seq<Token>, p: nat, v: Token, predicted: seq<Token>, predicted': seq<Token>)
    requires p < |drafts| && FirstUnused(drafts, 100 + p, v)
    requires |drafts| < |predicted| && |drafts| < |predicted'|
    requires forall i | 0 <= i <= p :: predicted[i] == predicted'[i]
    ensures var was := Verdict([anchor] + drafts, predicted);
            var now := Verdict([anchor] + drafts[p := v], predicted');
            // it stops exactly at p precisely when nothing was wrong earlier and the
            // decoy is not what the target wanted
            && (now.rejectedAt == Some(p) <==> was.accepted >= p && v != predicted[p])
            // a draft that was fine through p commits exactly its own first p + 1 tokens
            && (was.accepted > p ==> now == Ruling(p, drafts[..p + 1], Some(p)))
            // an earlier reject stands as it was
            && (was.accepted < p ==> now == was)
  {
    hide MatchLength;
    var old_, new_ := [anchor] + drafts, [anchor] + drafts[p := v];
    CorruptedMatch(old_, new_, predicted, predicted', p);
    var n := MatchLength(old_, predicted);
    assert new_[p + 1] == v;
    if n < p {
      assert old_[1..n + 1] == new_[1..n + 1];
    } else if n > p {
      assert drafts[p] in drafts && predicted[p] == old_[p + 1] == drafts[p];
      assert new_[1..p + 1] == drafts[..p];
      assert drafts[..p + 1] == drafts[..p] + [drafts[p]];
    }
  }

  /** The decoy need not be rejected: when the model's own draft was already wrong at the
      chosen position, the replacement can be exactly the token the target wanted. */
  lemma DecoyCanBeRight()
    ensures FirstUnused([5], 100, 100)
    ensures Verdict([7, 5], [100, 9]).accepted == 0
    ensures Verdict([7, 100], [100, 9]) == Ruling(1, [100, 9], None)
  {
    assert Verdict([7, 5], [100, 9]).accepted == 0;
    assert MatchFrom([7, 100], [100, 9], 1) == 1;
    assert [7, 100][1..2] == [100];
  }
}
