/**
  Sizing a prompt by binary search over word prefixes.  `cost(m)` is the token count of the
  first m words; a real tokenizer need not make it monotone.
 */
module PromptSizing {
  type Cost = nat -> nat

  /** Whether the first m words reach the target. */
  predicate Reaches(cost: Cost, target: nat, m: nat) {
    cost(m) >= target
  }

  /** m words reach the target and one word fewer does not. */
  ghost predicate Crossing(cost: Cost, target: nat, m: nat) {
    m >= 1 && Reaches(cost, target, m) && (m == 1 || !Reaches(cost, target, m - 1))
  }

  /** Add one word at a time until the target is reached or the words run out. */
  method Repair(words: nat, target: nat, cost: Cost, start: nat) returns (best: nat, passes: nat)
    requires start <= words
    ensures start <= best <= words && passes == best - start
    ensures best == words || Reaches(cost, target, best)
    ensures forall m | start <= m < best :: !Reaches(cost, target, m)
  {
    best, passes := start, 0;
    while cost(best) < target && best < words
      invariant start <= best <= words && passes == best - start
      invariant forall m | start <= m < best :: !Reaches(cost, target, m)
      decreases words - best
    {
      best, passes := best + 1, passes + 1;
    }
  }

  /** For any tokenizer at all the result is a crossing point, unless the whole text is too
      short, in which case it is the whole text.  The repair after the search never adds a
      word. */
  method MakePrompt(words: nat, target: nat, cost: Cost) returns (best: nat, repaired: nat)
    ensures best <= words && repaired == 0
    ensures Crossing(cost, target, best) || (best == words && (words == 0 || !Reaches(cost, target, words)))
  {
    var lo, hi := 1, words;
    best := words;
    while lo <= hi
      invariant 1 <= lo <= hi + 1 && 0 <= hi <= words && best <= words
      invariant lo == 1 || !Reaches(cost, target, lo - 1)
      invariant if hi == words then best == words else best == hi + 1 && Reaches(cost, target, best)
      decreases hi + 1 - lo
    {
      var mid := (lo + hi) / 2;
      if cost(mid) < target {
        lo := mid + 1;
      } else {
        best := mid;
        hi := mid - 1;
      }
    }
    best, repaired := Repair(words, target, cost, best);
  }

  /** A crossing point of a monotone count is its least reaching prefix. */
  lemma CrossingIsLeast(cost: Cost, target: nat, best: nat)
    requires forall a: nat, b: nat | a <= b :: cost(a) <= cost(b)
    requires Crossing(cost, target, best)
    ensures forall m: nat | 1 <= m :: Reaches(cost, target, m) <==> m >= best
  {
    forall m: nat | 1 <= m < best ensures !Reaches(cost, target, m) {
      assert cost(m) <= cost(best - 1);
    }
  }

  /** The text is long enough whenever the base has ten words and every word costs a token. */
  lemma TextIsLongEnough(baseWords: nat, target: nat, words: nat, cost: Cost)
    requires baseWords >= 10 && words == baseWords * (target / 10 + 2)
    requires forall m: nat :: cost(m) >= m
    ensures words > 0 && Reaches(cost, target, words)
  {
    assert words == 10 * (target / 10 + 2) + (baseWords - 10) * (target / 10 + 2);
    assert (baseWords - 10) * (target / 10 + 2) >= 0;
  }

  /** A count that dips lets the search settle on a crossing that is not the least one. */
  lemma DipsCanMislead()
    ensures exists cost: Cost :: Crossing(cost, 5, 1) && Crossing(cost, 5, 3)
  {
    var cost: Cost := m => if m == 2 then 4 else 5;
    assert Crossing(cost, 5, 1) && Crossing(cost, 5, 3);
  }
}
