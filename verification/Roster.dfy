/**
  The driver's own bookkeeping: requests, the active set and what a finished request leaves
  behind, with the counting facts about moving entries between lists.
 */
module Rosters {
  import opened Network
  import opened Outcomes
  import opened Runners

  datatype Request = Request(id: nat, arrival: nat, prompt: seq<Token>, maxTokens: nat)

  datatype Active = Active(slot: nat, refSlot: nat, req: Request, anchor: Token, drafts: seq<Token>,
                           first: Token, tokens: seq<Token>, admitted: nat)

  datatype Finished = Finished(req: Request, slot: nat, tokens: seq<Token>, admitted: nat, round: nat)

  /** The reference's opinion of one served next anchor. */
  datatype Report = Report(predicted: Token, next: Token, exact: bool, margin: real, ok: bool)

  /** `recent` is the served tail, kept only for rounds out of tolerance. */
  datatype Row = Row(round: nat, req: nat, report: Report, recent: Option<seq<Token>>)

  /** What a log row is really about: a request as it stood before a round, and that round. */
  datatype Sighting = Sighting(before: Active, round: Round)

  function Range(n: nat): (s: seq<nat>)
    ensures |s| == n && forall i | 0 <= i < n :: s[i] == i
  {
    if n == 0 then [] else Range(n - 1) + [n - 1]
  }

  function SlotsOf(active: seq<Active>): (s: seq<nat>)
    ensures |s| == |active| && forall i | 0 <= i < |active| :: s[i] == active[i].slot
  {
    if active == [] then [] else SlotsOf(active[..|active| - 1]) + [active[|active| - 1].slot]
  }

  function RefsOf(active: seq<Active>): (s: seq<nat>)
    ensures |s| == |active| && forall i | 0 <= i < |active| :: s[i] == active[i].refSlot
  {
    if active == [] then [] else RefsOf(active[..|active| - 1]) + [active[|active| - 1].refSlot]
  }

  function RequestsOf(active: seq<Active>): (s: seq<Request>)
    ensures |s| == |active| && forall i | 0 <= i < |active| :: s[i] == active[i].req
  {
    if active == [] then [] else RequestsOf(active[..|active| - 1]) + [active[|active| - 1].req]
  }

  function DoneOf(finished: seq<Finished>): (s: seq<Request>)
    ensures |s| == |finished| && forall i | 0 <= i < |finished| :: s[i] == finished[i].req
  {
    if finished == [] then [] else DoneOf(finished[..|finished| - 1]) + [finished[|finished| - 1].req]
  }

  /** The tokens whose state a slot serving `a` holds. */
  function HistoryOf(a: Active): (h: seq<Token>)
    ensures a.req.prompt != [] ==> h != []
  {
    (a.req.prompt + [a.first] + a.tokens)[..|a.req.prompt| + |a.tokens|]
  }

  function LastOf<T>(s: seq<T>, n: nat): seq<T> {
    if |s| <= n then s else s[|s| - n..]
  }

  /** Production slots come first; no two requests share a slot of either kind. */
  ghost predicate Apart(active: seq<Active>, capacity: nat, numSlots: nat) {
    && (forall i | 0 <= i < |active| :: active[i].slot < capacity <= active[i].refSlot < numSlots)
    && Distinct(SlotsOf(active)) && Distinct(RefsOf(active))
  }

  /** Rounds a request may still need at worst. */
  function Need(req: Request): nat {
    if req.maxTokens > 0 then req.maxTokens else 1
  }

  function Left(a: Active): nat {
    if a.req.maxTokens > |a.tokens| then a.req.maxTokens - |a.tokens| else 1
  }

  function Work(active: seq<Active>): nat {
    if active == [] then 0 else Work(active[..|active| - 1]) + Left(active[|active| - 1])
  }

  function NeedOf(reqs: seq<Request>): nat {
    if reqs == [] then 0 else NeedOf(reqs[..|reqs| - 1]) + Need(reqs[|reqs| - 1])
  }

  ghost predicate Unfinished(a: Active) {
    |a.tokens| < a.req.maxTokens || a.tokens == []
  }

  // ---------------------------------------------------------------------------
  // Bookkeeping over lists of active requests.
  // ---------------------------------------------------------------------------

  /** Requests that go on, and requests that have all their tokens; both keep the order. */
  function Still(us: seq<Active>): (k: seq<Active>)
    ensures forall a | a in k :: a in us && |a.tokens| < a.req.maxTokens
  {
    if us == [] then []
    else
      var a := us[|us| - 1];
      Still(us[..|us| - 1]) + if |a.tokens| < a.req.maxTokens then [a] else []
  }

  function Ended(us: seq<Active>): (d: seq<Active>)
    ensures forall a | a in d :: a in us && |a.tokens| >= a.req.maxTokens
  {
    if us == [] then []
    else
      var a := us[|us| - 1];
      Ended(us[..|us| - 1]) + if |a.tokens| >= a.req.maxTokens then [a] else []
  }

  function DoneAll(ended: seq<Active>, round: nat): (d: seq<Finished>)
    ensures |d| == |ended| && forall i | 0 <= i < |ended| ::
              d[i] == Finished(ended[i].req, ended[i].slot, ended[i].tokens, ended[i].admitted, round)
  {
    if ended == [] then []
    else
      var a := ended[|ended| - 1];
      DoneAll(ended[..|ended| - 1], round) + [Finished(a.req, a.slot, a.tokens, a.admitted, round)]
  }

  lemma Snoc(a: seq<Active>, x: Active)
    ensures SlotsOf(a + [x]) == SlotsOf(a) + [x.slot] && RefsOf(a + [x]) == RefsOf(a) + [x.refSlot]
    ensures RequestsOf(a + [x]) == RequestsOf(a) + [x.req] && Work(a + [x]) == Work(a) + Left(x)
  {
    assert (a + [x])[..|a|] == a;
  }

  lemma SplitSnoc(us: seq<Active>, a: Active)
    ensures Still(us + [a]) == Still(us) + if |a.tokens| < a.req.maxTokens then [a] else []
    ensures Ended(us + [a]) == Ended(us) + if |a.tokens| < a.req.maxTokens then [] else [a]
  {
    assert (us + [a])[..|us|] == us;
  }

  lemma DoneAllSnoc(ended: seq<Active>, a: Active, round: nat)
    ensures DoneAll(ended + [a], round)
         == DoneAll(ended, round) + [Finished(a.req, a.slot, a.tokens, a.admitted, round)]
  {
    assert (ended + [a])[..|ended|] == ended;
  }

  /** Nobody is lost or counted twice: neither slots, nor reference slots, nor requests. */
  lemma {:induction false} SlotsSplit(us: seq<Active>)
    ensures multiset(SlotsOf(Still(us))) + multiset(SlotsOf(Ended(us))) == multiset(SlotsOf(us))
  {
    if us != [] {
      hide SlotsOf, RefsOf, RequestsOf, Work, Still, Ended;
      var front, a := us[..|us| - 1], us[|us| - 1];
      assert us == front + [a];
      SlotsSplit(front);
      SplitSnoc(front, a);
      Snoc(front, a);
      if |a.tokens| < a.req.maxTokens {
        Snoc(Still(front), a);
        assert Ended(us) == Ended(front);
      } else {
        Snoc(Ended(front), a);
        assert Still(us) == Still(front);
      }
    }
  }

  lemma {:induction false} RefsSplit(us: seq<Active>)
    ensures multiset(RefsOf(Still(us))) + multiset(RefsOf(Ended(us))) == multiset(RefsOf(us))
  {
    if us != [] {
      hide SlotsOf, RefsOf, RequestsOf, Work, Still, Ended;
      var front, a := us[..|us| - 1], us[|us| - 1];
      assert us == front + [a];
      RefsSplit(front);
      SplitSnoc(front, a);
      Snoc(front, a);
      if |a.tokens| < a.req.maxTokens {
        Snoc(Still(front), a);
        assert Ended(us) == Ended(front);
      } else {
        Snoc(Ended(front), a);
        assert Still(us) == Still(front);
      }
    }
  }

  lemma {:induction false} RequestsSplit(us: seq<Active>)
    ensures multiset(RequestsOf(Still(us))) + multiset(RequestsOf(Ended(us))) == multiset(RequestsOf(us))
  {
    if us != [] {
      hide SlotsOf, RefsOf, RequestsOf, Work, Still, Ended;
      var front, a := us[..|us| - 1], us[|us| - 1];
      assert us == front + [a];
      RequestsSplit(front);
      SplitSnoc(front, a);
      Snoc(front, a);
      if |a.tokens| < a.req.maxTokens {
        Snoc(Still(front), a);
        assert Ended(us) == Ended(front);
      } else {
        Snoc(Ended(front), a);
        assert Still(us) == Still(front);
      }
    }
  }

  /** A round's work: every request that was active comes strictly closer to its end. */
  lemma {:induction false} RoundShrinksWork(was: seq<Active>, now: seq<Active>)
    requires |was| == |now|
    requires forall i | 0 <= i < |was| :: was[i].req == now[i].req && |was[i].tokens| < |now[i].tokens|
    ensures Work(Still(now)) + |was| <= Work(was)
  {
    if was != [] {
      var n := |was| - 1;
      RoundShrinksWork(was[..n], now[..n]);
      Snoc(Still(now[..n]), now[n]);
      assert Still(now[..n]) + [] == Still(now[..n]);
    }
  }

  // ---------------------------------------------------------------------------
  // Lists without repeats, by counting.
  // ---------------------------------------------------------------------------

  lemma CountTwo<T>(s: seq<T>, i: nat, j: nat)
    requires i < j < |s| && s[i] == s[j]
    ensures multiset(s)[s[i]] >= 2
  {
    var left, right := s[..j], s[j..];
    assert s == left + right;
    assert left[i] == s[i] && right[0] == s[j];
    assert s[i] in multiset(left) && s[i] in multiset(right);
  }

  lemma CountAll(s: seq<nat>)
    requires Distinct(s)
    ensures forall x :: multiset(s)[x] <= 1
  {
    forall x: nat ensures multiset(s)[x] <= 1 {
      CountOfDistinct(s, x);
    }
  }

  /** No production slot is listed twice. */
  lemma RangeIsDistinct(n: nat)
    ensures forall x :: multiset(Range(n))[x] <= 1
  {
    forall x: nat ensures multiset(Range(n))[x] <= 1 {
      CountOfDistinct(Range(n), x);
    }
  }

  lemma DistinctByCount(s: seq<nat>)
    requires forall x :: multiset(s)[x] <= 1
    ensures Distinct(s)
  {
    forall i, j | 0 <= i < j < |s| ensures s[i] != s[j] {
      if s[i] == s[j] {
        CountTwo(s, i, j);
      }
    }
  }

  lemma {:induction false} CountOfDistinct(s: seq<nat>, x: nat)
    requires Distinct(s)
    ensures multiset(s)[x] <= 1
  {
    if s != [] {
      var front := s[..|s| - 1];
      CountOfDistinct(front, x);
      assert s == front + [s[|s| - 1]];
      if s[|s| - 1] == x {
        assert x !in front;
      }
    }
  }

  /** Two lists that together are a list without repeats have none and share nothing. */
  lemma PartsOfDistinct(a: seq<nat>, b: seq<nat>, whole: multiset<nat>)
    requires multiset(a) + multiset(b) <= whole && forall x :: whole[x] <= 1
    ensures Distinct(a) && Distinct(b)
    ensures forall i | 0 <= i < |a| :: a[i] in whole && a[i] !in b
    ensures forall i | 0 <= i < |b| :: b[i] in whole && b[i] !in a
  {
    assert forall x :: (multiset(a) + multiset(b))[x] == multiset(a)[x] + multiset(b)[x];
    DistinctByCount(a);
    DistinctByCount(b);
    forall i | 0 <= i < |a| ensures a[i] in whole && a[i] !in b {
      assert a[i] in multiset(a);
    }
    forall i | 0 <= i < |b| ensures b[i] in whole && b[i] !in a {
      assert b[i] in multiset(b);
    }
  }
}
