/**
  The verdict pass: rounds out of tolerance are gathered into streaks per request, and a
  streak is either forgiven as a whole or reported round by round.
 */
module Verdicts {
  import opened Network
  import opened Repetition
  import opened Rosters
  import opened Sorting

  const MAX_BENIGN_STREAK: nat := 2
  const MIN_REPEAT: nat := 12
  const REPLACEMENT: char := '\U{FFFD}'

  /** Texts come from a tokenizer this model knows nothing about. */
  type Decoder = seq<Token> -> string

  function RoundOf(row: Row): nat {
    row.round
  }

  function RequestOf(row: Row): nat {
    row.req
  }

  predicate Coherent(text: string) {
    text != "" && REPLACEMENT !in text
  }

  ghost predicate PatternOk(row: Row, decode: Decoder) {
    row.recent.Some? && Detected(decode(row.recent.value), MIN_REPEAT)
  }

  /** An exact round keeps no token texts, and a missing text is not coherent. */
  predicate TokensOk(row: Row, decode: Decoder) {
    !row.report.exact && Coherent(decode([row.report.predicted])) && Coherent(decode([row.report.next]))
  }

  // ---------------------------------------------------------------------------
  // What a streak is, one round at a time.
  // ---------------------------------------------------------------------------

  /** A maximal run of rounds out of tolerance. */
  ghost predicate Streak(rows: seq<Row>, i: nat, j: nat) {
    && i < j <= |rows| && (forall k | i <= k < j :: !rows[k].report.ok)
    && (i == 0 || rows[i - 1].report.ok) && (j == |rows| || rows[j].report.ok)
  }

  function StreakFrom(rows: seq<Row>, k: nat): (i: nat)
    requires k < |rows|
    ensures i <= k
  {
    if k == 0 || rows[k - 1].report.ok then k else StreakFrom(rows, k - 1)
  }

  function StreakTo(rows: seq<Row>, k: nat): (j: nat)
    requires k < |rows|
    ensures k < j <= |rows|
    decreases |rows| - k
  {
    if k + 1 == |rows| || rows[k + 1].report.ok then k + 1 else StreakTo(rows, k + 1)
  }

  /** Every round out of tolerance is in a streak... */
  lemma {:induction false} StartsStreak(rows: seq<Row>, k: nat)
    requires k < |rows| && !rows[k].report.ok
    ensures var i := StreakFrom(rows, k);
            (i == 0 || rows[i - 1].report.ok) && forall m | i <= m <= k :: !rows[m].report.ok
  {
    if k > 0 && !rows[k - 1].report.ok {
      StartsStreak(rows, k - 1);
    }
  }

  lemma {:induction false} EndsStreak(rows: seq<Row>, k: nat)
    requires k < |rows| && !rows[k].report.ok
    ensures var j := StreakTo(rows, k);
            (j == |rows| || rows[j].report.ok) && forall m | k <= m < j :: !rows[m].report.ok
    decreases |rows| - k
  {
    if k + 1 < |rows| && !rows[k + 1].report.ok {
      EndsStreak(rows, k + 1);
    }
  }

  /** ...and in only one. */
  lemma InOneStreak(rows: seq<Row>, k: nat, i: nat, j: nat)
    requires k < |rows| && !rows[k].report.ok
    ensures Streak(rows, StreakFrom(rows, k), StreakTo(rows, k))
    ensures Streak(rows, i, j) && i <= k < j ==> i == StreakFrom(rows, k) && j == StreakTo(rows, k)
  {
    hide StreakFrom, StreakTo;
    StartsStreak(rows, k);
    EndsStreak(rows, k);
  }

  /** Forgiven iff a round follows it (and by maximality is within tolerance), it is short, and
      every round in it passes both text tests. */
  ghost predicate Forgivable(rows: seq<Row>, i: nat, j: nat, decode: Decoder)
    requires i <= j <= |rows|
  {
    j < |rows| && j - i <= MAX_BENIGN_STREAK && AllPattern(rows[i..j], decode) && AllTokens(rows[i..j], decode)
  }

  ghost predicate AllPattern(rows: seq<Row>, decode: Decoder) {
    forall k | 0 <= k < |rows| :: PatternOk(rows[k], decode)
  }

  ghost predicate AllTokens(rows: seq<Row>, decode: Decoder) {
    forall k | 0 <= k < |rows| :: TokensOk(rows[k], decode)
  }

  ghost predicate Forgiven(rows: seq<Row>, k: nat, decode: Decoder)
    requires k < |rows|
  {
    !rows[k].report.ok && Forgivable(rows, StreakFrom(rows, k), StreakTo(rows, k), decode)
  }

  datatype Benign = Benign(req: nat, streak: seq<Row>, heals: nat)

  datatype Failure = Failure(req: nat, row: Row, resolves: bool, short: bool, pattern: bool, tokens: bool)

  ghost function FailureAt(req: nat, rows: seq<Row>, k: nat, decode: Decoder): Failure
    requires k < |rows|
  {
    var i, j := StreakFrom(rows, k), StreakTo(rows, k);
    Failure(req, rows[k], j < |rows|, j - i <= MAX_BENIGN_STREAK, AllPattern(rows[i..j], decode),
            AllTokens(rows[i..j], decode))
  }

  /** The failures among the first n rounds: everything out of tolerance and not forgiven. */
  ghost function FailuresOf(req: nat, rows: seq<Row>, decode: Decoder, n: nat): seq<Failure>
    requires n <= |rows|
  {
    if n == 0 then []
    else
      FailuresOf(req, rows, decode, n - 1) +
      if !rows[n - 1].report.ok && !Forgiven(rows, n - 1, decode) then [FailureAt(req, rows, n - 1, decode)] else []
  }

  /** The forgiven streaks among the first n rounds, each at its first round. */
  ghost function BenignOf(req: nat, rows: seq<Row>, decode: Decoder, n: nat): seq<Benign>
    requires n <= |rows|
  {
    if n == 0 then []
    else
      BenignOf(req, rows, decode, n - 1) +
      if Forgiven(rows, n - 1, decode) && StreakFrom(rows, n - 1) == n - 1 then
        [Benign(req, rows[n - 1..StreakTo(rows, n - 1)], rows[StreakTo(rows, n - 1)].round)]
      else []
  }

  function Flagged(rows: seq<Row>, n: nat): nat
    requires n <= |rows|
  {
    if n == 0 then 0 else Flagged(rows, n - 1) + if rows[n - 1].report.ok then 0 else 1
  }

  function Covered(benign: seq<Benign>): nat {
    if benign == [] then 0 else Covered(benign[..|benign| - 1]) + |benign[|benign| - 1].streak|
  }

  // ---------------------------------------------------------------------------
  // One streak at a time.
  // ---------------------------------------------------------------------------

  /** Rounds within tolerance report nothing. */
  lemma SkipRound(req: nat, rows: seq<Row>, decode: Decoder, i: nat)
    requires i < |rows| && rows[i].report.ok
    ensures FailuresOf(req, rows, decode, i + 1) == FailuresOf(req, rows, decode, i)
    ensures BenignOf(req, rows, decode, i + 1) == BenignOf(req, rows, decode, i)
    ensures Flagged(rows, i + 1) == Flagged(rows, i)
  {
  }

  /** A forgiven streak is reported once, at its head, and none of its rounds fails. */
  lemma {:induction false} ForgiveStreak(req: nat, rows: seq<Row>, decode: Decoder, i: nat, j: nat, m: nat)
    requires Streak(rows, i, j) && Forgivable(rows, i, j, decode) && i < m <= j
    ensures FailuresOf(req, rows, decode, m) == FailuresOf(req, rows, decode, i)
    ensures BenignOf(req, rows, decode, m) == BenignOf(req, rows, decode, i) + [Benign(req, rows[i..j], rows[j].round)]
    ensures Flagged(rows, m) == Flagged(rows, i) + (m - i)
    decreases m
  {
    hide StreakFrom, StreakTo, Forgivable, FailureAt;
    InOneStreak(rows, m - 1, i, j);
    if m - 1 > i {
      ForgiveStreak(req, rows, decode, i, j, m - 1);
    }
  }

  /** One more round of a streak that is not forgiven. */
  lemma FailRound(req: nat, rows: seq<Row>, decode: Decoder, i: nat, j: nat, m: nat)
    requires Streak(rows, i, j) && !Forgivable(rows, i, j, decode) && i <= m < j
    ensures FailuresOf(req, rows, decode, m + 1) == FailuresOf(req, rows, decode, m) + [FailureAt(req, rows, m, decode)]
    ensures BenignOf(req, rows, decode, m + 1) == BenignOf(req, rows, decode, m)
    ensures Flagged(rows, m + 1) == Flagged(rows, m) + 1
    ensures StreakFrom(rows, m) == i && StreakTo(rows, m) == j
  {
    hide StreakFrom, StreakTo, Forgivable, FailureAt;
    InOneStreak(rows, m, i, j);
  }

  method CheckPattern(streak: seq<Row>, decode: Decoder) returns (ok: bool)
    ensures ok == AllPattern(streak, decode)
  {
    ok := true;
    for k := 0 to |streak|
      invariant ok == forall m | 0 <= m < k :: PatternOk(streak[m], decode)
    {
      if streak[k].recent.None? {
        return false;
      }
      var hit := LooksRepetitive(decode(streak[k].recent.value), MIN_REPEAT);
      ok := ok && hit;
    }
  }

  method CheckTokens(streak: seq<Row>, decode: Decoder) returns (ok: bool)
    ensures ok == AllTokens(streak, decode)
  {
    ok := true;
    for k := 0 to |streak|
      invariant ok == forall m | 0 <= m < k :: TokensOk(streak[m], decode)
    {
      ok := ok && TokensOk(streak[k], decode);
    }
  }

  /** The scan over one request's rounds finds exactly the streaks: every round out of
      tolerance is reported once, in the streak that holds it, as forgiven or as failing. */
  method ScanRows(req: nat, rows: seq<Row>, decode: Decoder) returns (benign: seq<Benign>, failures: seq<Failure>)
    ensures benign == BenignOf(req, rows, decode, |rows|)
    ensures failures == FailuresOf(req, rows, decode, |rows|)
  {
    hide StreakFrom, StreakTo, FailuresOf, BenignOf, Flagged, AllPattern, AllTokens;
    benign, failures := [], [];
    var i := 0;
    NothingScanned(req, rows, decode);
    while i < |rows|
      invariant i <= |rows| && (i == 0 || i == |rows| || rows[i].report.ok || rows[i - 1].report.ok)
      invariant benign == BenignOf(req, rows, decode, i) && failures == FailuresOf(req, rows, decode, i)
    {
      if rows[i].report.ok {
        SkipRound(req, rows, decode, i);
        i := i + 1;
      } else {
        var j := i + 1;
        while j < |rows| && !rows[j].report.ok
          invariant i < j <= |rows| && forall k | i <= k < j :: !rows[k].report.ok
        {
          j := j + 1;
        }
        var streak := rows[i..j];
        var resolves, short := j < |rows|, |streak| <= MAX_BENIGN_STREAK;
        var pattern := CheckPattern(streak, decode);
        var tokens := CheckTokens(streak, decode);
        if resolves && short && pattern && tokens {
          ForgiveStreak(req, rows, decode, i, j, j);
          benign := benign + [Benign(req, streak, rows[j].round)];
        } else {
          failures := ReportStreak(req, rows, decode, i, j, failures, resolves, short, pattern, tokens);
        }
        i := j;
      }
    }
  }

  method ReportStreak(req: nat, rows: seq<Row>, decode: Decoder, i: nat, j: nat, before: seq<Failure>, resolves: bool,
        short: bool, pattern: bool, tokens: bool)
    returns (failures: seq<Failure>)
    requires Streak(rows, i, j) && before == FailuresOf(req, rows, decode, i)
    requires resolves == (j < |rows|) && short == (j - i <= MAX_BENIGN_STREAK)
    requires pattern == AllPattern(rows[i..j], decode) && tokens == AllTokens(rows[i..j], decode)
    requires !(resolves && short && pattern && tokens)
    ensures failures == FailuresOf(req, rows, decode, j)
    ensures BenignOf(req, rows, decode, j) == BenignOf(req, rows, decode, i)
  {
    hide StreakFrom, StreakTo, FailuresOf, BenignOf, Flagged, AllPattern, AllTokens;
    failures := before;
    for m := i to j
      invariant failures == FailuresOf(req, rows, decode, m)
      invariant BenignOf(req, rows, decode, m) == BenignOf(req, rows, decode, i)
    {
      FailRound(req, rows, decode, i, j, m);
      failures := failures + [Failure(req, rows[m], resolves, short, pattern, tokens)];
    }
  }

  lemma NothingScanned(req: nat, rows: seq<Row>, decode: Decoder)
    ensures BenignOf(req, rows, decode, 0) == [] && FailuresOf(req, rows, decode, 0) == [] && Flagged(rows, 0) == 0
  {
  }

  /** No round is lost or reported twice: rounds in forgiven streaks plus failing rounds are
      the rounds out of tolerance.  (`n` must not cut a streak.) */
  lemma {:induction false} EveryRoundOnce(req: nat, rows: seq<Row>, decode: Decoder, n: nat)
    requires n <= |rows| && (n == 0 || n == |rows| || rows[n].report.ok || rows[n - 1].report.ok)
    ensures Covered(BenignOf(req, rows, decode, n)) + |FailuresOf(req, rows, decode, n)| == Flagged(rows, n)
    decreases n
  {
    hide StreakFrom, StreakTo, FailuresOf, BenignOf, Flagged, Forgivable, Covered;
    if n == 0 {
      NothingScanned(req, rows, decode);
      CoveredSnoc([], []);
    } else if rows[n - 1].report.ok {
      SkipRound(req, rows, decode, n - 1);
      EveryRoundOnce(req, rows, decode, n - 1);
    } else {
      InOneStreak(rows, n - 1, 0, 0);
      var i := StreakFrom(rows, n - 1);
      StartsStreak(rows, n - 1);
      assert Streak(rows, i, n);
      EveryRoundOnce(req, rows, decode, i);
      if Forgivable(rows, i, n, decode) {
        ForgivableResolves(rows, i, n, decode);
        ForgiveStreak(req, rows, decode, i, n, n);
        CoveredSnoc(BenignOf(req, rows, decode, i), [Benign(req, rows[i..n], rows[n].round)]);
      } else {
        FailStreak(req, rows, decode, i, n, n);
      }
    }
  }

  lemma ForgivableResolves(rows: seq<Row>, i: nat, j: nat, decode: Decoder)
    requires i <= j <= |rows| && Forgivable(rows, i, j, decode)
    ensures j < |rows|
  {
  }

  lemma CoveredSnoc(benign: seq<Benign>, more: seq<Benign>)
    requires |more| <= 1
    ensures Covered(benign + more) == Covered(benign) + if more == [] then 0 else |more[0].streak|
    ensures Covered([]) == 0
  {
    if more == [] {
      assert benign + more == benign;
    } else {
      assert (benign + more)[..|benign|] == benign;
    }
  }

  lemma {:induction false} FailStreak(req: nat, rows: seq<Row>, decode: Decoder, i: nat, j: nat, m: nat)
    requires Streak(rows, i, j) && !Forgivable(rows, i, j, decode) && i <= m <= j
    ensures BenignOf(req, rows, decode, m) == BenignOf(req, rows, decode, i)
    ensures |FailuresOf(req, rows, decode, m)| == |FailuresOf(req, rows, decode, i)| + (m - i)
    ensures Flagged(rows, m) == Flagged(rows, i) + (m - i)
    decreases m
  {
    hide StreakFrom, StreakTo, Forgivable, FailureAt, FailuresOf, BenignOf, Flagged;
    if m > i {
      FailStreak(req, rows, decode, i, j, m - 1);
      FailRound(req, rows, decode, i, j, m - 1);
    }
  }

  /** A request passes iff each of its rounds is within tolerance or forgiven. */
  lemma {:induction false} PassesIff(req: nat, rows: seq<Row>, decode: Decoder, n: nat)
    requires n <= |rows|
    ensures FailuresOf(req, rows, decode, n) == [] <==>
            forall k: nat | k < n :: rows[k].report.ok || Forgiven(rows, k, decode)
  {
    hide Forgiven, FailureAt;
    if n > 0 {
      PassesIff(req, rows, decode, n - 1);
    }
  }

  /** Two rounds out of tolerance in a row are the most that can ever be forgiven, and nothing
      is forgiven at the end of a request. */
  lemma LongOrFinalStreakFails(req: nat, rows: seq<Row>, decode: Decoder, i: nat, j: nat)
    requires Streak(rows, i, j) && (j - i > MAX_BENIGN_STREAK || j == |rows|)
    ensures FailuresOf(req, rows, decode, |rows|) != []
  {
    hide StreakFrom, StreakTo, FailuresOf;
    InOneStreak(rows, i, i, j);
    PassesIff(req, rows, decode, |rows|);
  }

  // ---------------------------------------------------------------------------
  // The whole log.
  // ---------------------------------------------------------------------------

  function RowsOf(log: seq<Row>, req: nat): seq<Row> {
    WithKey(log, RequestOf, req)
  }

  /** Group by request, requests in order of their first row. */
  method GroupByRequest(log: seq<Row>) returns (order: seq<nat>, groups: map<nat, seq<Row>>)
    ensures forall q: nat :: q in groups ==> groups[q] == RowsOf(log, q) && q in order
    ensures forall q: nat :: q !in groups ==> RowsOf(log, q) == []
    ensures forall i | 0 <= i < |order| :: order[i] in groups
    ensures forall i, j | 0 <= i < j < |order| :: order[i] != order[j]
  {
    hide WithKey;
    order, groups := [], map[];
    forall q: nat ensures RowsOf([], q) == [] {
      NoRows(q);
    }
    for n := 0 to |log|
      invariant forall q: nat :: q in groups ==> groups[q] == RowsOf(log[..n], q) && q in order
      invariant forall q: nat :: q !in groups ==> RowsOf(log[..n], q) == []
      invariant forall i | 0 <= i < |order| :: order[i] in groups
      invariant forall i, j | 0 <= i < j < |order| :: order[i] != order[j]
    {
      var row := log[n];
      forall q: nat ensures RowsOf(log[..n + 1], q) == RowsOf(log[..n], q) + if row.req == q then [row] else [] {
        RowsSnoc(log, n, q);
      }
      if row.req in groups {
        groups := groups[row.req := groups[row.req] + [row]];
      } else {
        order, groups := order + [row.req], groups[row.req := [row]];
      }
    }
    assert log[..|log|] == log;
  }

  lemma NoRows(q: nat)
    ensures RowsOf([], q) == []
  {
  }

  lemma RowsSnoc(log: seq<Row>, n: nat, q: nat)
    requires n < |log|
    ensures RowsOf(log[..n + 1], q) == RowsOf(log[..n], q) + if log[n].req == q then [log[n]] else []
  {
    assert log[..n + 1][..n] == log[..n];
  }

  function FailureRequest(f: Failure): nat {
    f.req
  }

  function BenignRequest(b: Benign): nat {
    b.req
  }

  /** The verdict on one request, whatever else is in the log: the scan of its own rows in
      round order. */
  ghost predicate RequestVerdict(log: seq<Row>, decode: Decoder, benign: seq<Benign>, failures: seq<Failure>, q: nat) {
    forall rows | StablySorted(RowsOf(log, q), rows, RoundOf) ::
      && WithKey(benign, BenignRequest, q) == BenignOf(q, rows, decode, |rows|)
      && WithKey(failures, FailureRequest, q) == FailuresOf(q, rows, decode, |rows|)
  }

  method ClassifyLog(log: seq<Row>, decode: Decoder) returns (benign: seq<Benign>, failures: seq<Failure>)
    ensures forall q: nat :: RequestVerdict(log, decode, benign, failures, q)
  {
    hide RequestVerdict, RowsOf, WithKey, StablySorted, FailuresOf, BenignOf;
    var order, groups := GroupByRequest(log);
    benign, failures := [], [];
    NothingReported();
    for n := 0 to |order|
      invariant forall i | 0 <= i < n :: RequestVerdict(log, decode, benign, failures, order[i])
      invariant forall q: nat ::
                  q !in order[..n] ==>
                    WithKey(benign, BenignRequest, q) == [] && WithKey(failures, FailureRequest, q) == []
    {
      var q := order[n];
      var rows := SortBy(groups[q], RoundOf);
      var b, f := ScanRows(q, rows, decode);
      assert q !in order[..n];
      forall p: nat
        ensures WithKey(benign + b, BenignRequest, p) == if p == q then b else WithKey(benign, BenignRequest, p)
        ensures WithKey(failures + f, FailureRequest, p) == if p == q then f else WithKey(failures, FailureRequest, p)
      {
        WithKeyAppend(benign, b, BenignRequest, p);
        WithKeyAppend(failures, f, FailureRequest, p);
        TagsOf(q, rows, decode, |rows|, p);
      }
      VerdictOf(log, decode, benign + b, failures + f, q, rows);
      forall i | 0 <= i < n ensures RequestVerdict(log, decode, benign + b, failures + f, order[i]) {
        SameVerdict(log, decode, benign, failures, benign + b, failures + f, order[i]);
      }
      benign, failures := benign + b, failures + f;
      assert order[..n + 1] == order[..n] + [q];
    }
    forall q: nat ensures RequestVerdict(log, decode, benign, failures, q) {
      if q in groups {
        var i :| 0 <= i < |order| && order[i] == q;
      } else {
        assert order[..|order|] == order;
        AbsentVerdict(log, decode, benign, failures, q);
      }
    }
  }

  lemma NothingReported()
    ensures forall q: nat ::
              WithKey<Benign>([], BenignRequest, q) == [] && WithKey<Failure>([], FailureRequest, q) == []
  {
  }

  lemma {:induction false} TagsOf(req: nat, rows: seq<Row>, decode: Decoder, n: nat, p: nat)
    requires n <= |rows|
    ensures WithKey(BenignOf(req, rows, decode, n), BenignRequest, p)
         == if p == req then BenignOf(req, rows, decode, n) else []
    ensures WithKey(FailuresOf(req, rows, decode, n), FailureRequest, p)
         == if p == req then FailuresOf(req, rows, decode, n) else []
  {
    hide Forgiven, StreakFrom, StreakTo, AllPattern, AllTokens, WithKey;
    if n > 0 {
      TagsOf(req, rows, decode, n - 1, p);
      var b, f := BenignOf(req, rows, decode, n - 1), FailuresOf(req, rows, decode, n - 1);
      TagsOfRest(req, BenignOf(req, rows, decode, n)[|b|..], FailuresOf(req, rows, decode, n)[|f|..], p);
      WithKeyAppend(b, BenignOf(req, rows, decode, n)[|b|..], BenignRequest, p);
      WithKeyAppend(f, FailuresOf(req, rows, decode, n)[|f|..], FailureRequest, p);
    } else {
      NothingReported();
    }
  }

  lemma TagsOfRest(req: nat, b: seq<Benign>, f: seq<Failure>, p: nat)
    requires |b| <= 1 && |f| <= 1 && (forall x | x in b :: x.req == req) && forall x | x in f :: x.req == req
    ensures WithKey(b, BenignRequest, p) == if p == req then b else []
    ensures WithKey(f, FailureRequest, p) == if p == req then f else []
  {
    assert |b| == 1 ==> b[0] in b && b == [b[0]];
    assert |f| == 1 ==> f[0] in f && f == [f[0]];
  }

  lemma VerdictOf(log: seq<Row>, decode: Decoder, benign: seq<Benign>, failures: seq<Failure>, q: nat, rows: seq<Row>)
    requires StablySorted(RowsOf(log, q), rows, RoundOf)
    requires WithKey(benign, BenignRequest, q) == BenignOf(q, rows, decode, |rows|)
    requires WithKey(failures, FailureRequest, q) == FailuresOf(q, rows, decode, |rows|)
    ensures RequestVerdict(log, decode, benign, failures, q)
  {
    hide WithKey, FailuresOf, BenignOf, Ordered;
    forall other | StablySorted(RowsOf(log, q), other, RoundOf) ensures other == rows {
      assert |multiset(other)| == |other| && |multiset(rows)| == |rows|;
      SortedIsUnique(rows, other, RoundOf);
    }
  }

  lemma SameVerdict(log: seq<Row>, decode: Decoder, b: seq<Benign>, f: seq<Failure>, b': seq<Benign>, f': seq<Failure>,
        q: nat)
    requires RequestVerdict(log, decode, b, f, q)
    requires WithKey(b', BenignRequest, q) == WithKey(b, BenignRequest, q)
    requires WithKey(f', FailureRequest, q) == WithKey(f, FailureRequest, q)
    ensures RequestVerdict(log, decode, b', f', q)
  {
    hide WithKey, FailuresOf, BenignOf, StablySorted;
  }

  lemma AbsentVerdict(log: seq<Row>, decode: Decoder, benign: seq<Benign>, failures: seq<Failure>, q: nat)
    requires RowsOf(log, q) == [] && WithKey(benign, BenignRequest, q) == []
    requires WithKey(failures, FailureRequest, q) == []
    ensures RequestVerdict(log, decode, benign, failures, q)
  {
    hide WithKey, Ordered;
    forall rows | StablySorted(RowsOf(log, q), rows, RoundOf) ensures rows == [] {
      assert |multiset(rows)| == |rows|;
    }
  }

  /** Two logs that agree on one request's rows give it the same verdict, however the rows of
      other requests are interleaved with them. */
  lemma VerdictIgnoresOthers(log: seq<Row>, other: seq<Row>, decode: Decoder, b: seq<Benign>, f: seq<Failure>,
        b': seq<Benign>, f': seq<Failure>, q: nat, rows: seq<Row>)
    requires RequestVerdict(log, decode, b, f, q) && RequestVerdict(other, decode, b', f', q)
    requires RowsOf(log, q) == RowsOf(other, q) && StablySorted(RowsOf(log, q), rows, RoundOf)
    ensures WithKey(b, BenignRequest, q) == WithKey(b', BenignRequest, q)
    ensures WithKey(f, FailureRequest, q) == WithKey(f', FailureRequest, q)
  {
    hide WithKey, FailuresOf, BenignOf, StablySorted;
  }

  /** Nothing is reported exactly when every request passes on its own. */
  lemma NoFailures(failures: seq<Failure>)
    ensures failures == [] <==> forall q: nat :: WithKey(failures, FailureRequest, q) == []
  {
    if failures != [] {
      assert WithKey(failures, FailureRequest, failures[0].req) != [];
    }
  }

  // ---------------------------------------------------------------------------
  // When the pass reports nothing.
  // ---------------------------------------------------------------------------

  /** Every round of a request, in round order, is within tolerance or forgiven. */
  ghost predicate RequestExcused(log: seq<Row>, decode: Decoder, q: nat) {
    forall rows: seq<Row> | StablySorted(RowsOf(log, q), rows, RoundOf) ::
      forall k: nat | k < |rows| :: rows[k].report.ok || Forgiven(rows, k, decode)
  }

  ghost predicate Excused(log: seq<Row>, decode: Decoder) {
    forall q: nat :: RequestExcused(log, decode, q)
  }

  lemma RequestPassesIff(log: seq<Row>, decode: Decoder, benign: seq<Benign>, failures: seq<Failure>, q: nat)
    requires RequestVerdict(log, decode, benign, failures, q)
    ensures WithKey(failures, FailureRequest, q) == [] <==> RequestExcused(log, decode, q)
  {
    hide WithKey, FailuresOf, BenignOf, Forgiven, StablySorted, RowsOf;
    var sorted := SortExists(RowsOf(log, q), RoundOf);
    forall rows: seq<Row> | StablySorted(RowsOf(log, q), rows, RoundOf)
      ensures WithKey(failures, FailureRequest, q) == [] <==>
              forall k: nat | k < |rows| :: rows[k].report.ok || Forgiven(rows, k, decode)
    {
      PassesIff(q, rows, decode, |rows|);
    }
  }

  /** The pass reports no failure exactly when every round of every request is excused. */
  lemma NothingFailsIff(log: seq<Row>, decode: Decoder, benign: seq<Benign>, failures: seq<Failure>)
    requires forall q: nat :: RequestVerdict(log, decode, benign, failures, q)
    ensures failures == [] <==> Excused(log, decode)
  {
    hide WithKey, RequestVerdict, RequestExcused;
    NoFailures(failures);
    forall q: nat ensures WithKey(failures, FailureRequest, q) == [] <==> RequestExcused(log, decode, q) {
      RequestPassesIff(log, decode, benign, failures, q);
    }
  }

  /** A log without a round out of tolerance is excused. */
  lemma QuietIsExcused(log: seq<Row>, decode: Decoder)
    requires forall i | 0 <= i < |log| :: log[i].report.ok
    ensures Excused(log, decode)
  {
    hide WithKey, Forgiven, Ordered;
    forall q: nat, rows: seq<Row> | StablySorted(RowsOf(log, q), rows, RoundOf)
      ensures forall k: nat | k < |rows| :: rows[k].report.ok
    {
      forall k: nat | k < |rows| ensures rows[k].report.ok {
        var own := RowsOf(log, q);
        assert rows[k] in multiset(own);
        var i :| 0 <= i < |own| && own[i] == rows[k];
        WithKeyIn(log, RequestOf, q, i);
      }
    }
  }

  /** This very row of the log is within tolerance, or forgiven among its request's rows. */
  ghost predicate RowExcused(log: seq<Row>, i: nat, decode: Decoder)
    requires i < |log|
  {
    log[i].report.ok ||
    exists rows: seq<Row>, k: nat ::
      && StablySorted(RowsOf(log, log[i].req), rows, RoundOf) && k < |rows| && rows[k] == log[i]
      && Forgiven(rows, k, decode)
  }

  lemma {:induction false} OwnKey<T>(s: seq<T>, key: T -> nat, i: nat)
    requires i < |s|
    ensures s[i] in WithKey(s, key, key(s[i]))
  {
    if i < |s| - 1 {
      OwnKey(s[..|s| - 1], key, i);
    }
  }

  /** No row of an excused log is left out. */
  lemma ExcusedRow(log: seq<Row>, decode: Decoder, i: nat)
    requires Excused(log, decode) && i < |log|
    ensures RowExcused(log, i, decode)
  {
    hide WithKey, Forgiven, Ordered;
    var q := log[i].req;
    var rows := SortExists(RowsOf(log, q), RoundOf);
    assert RequestExcused(log, decode, q);
    OwnKey(log, RequestOf, i);
    assert log[i] in multiset(RowsOf(log, q)) && log[i] in rows;
    var k: nat :| k < |rows| && rows[k] == log[i];
  }

  // ---------------------------------------------------------------------------
  // The criteria in full, without the names above.
  // ---------------------------------------------------------------------------

  /** A text with some content and no replacement character. */
  ghost predicate Readable(text: string) {
    |text| > 0 && forall i | 0 <= i < |text| :: text[i] != '\U{FFFD}'
  }

  /** A text of at least 24 characters in which twelve in a row start at two places. */
  ghost predicate SaysTwelveTwice(text: string) {
    |text| >= 24 && exists a: nat, b: nat :: SameTwelve(text, a, b)
  }

  ghost predicate SameTwelve(text: string, a: nat, b: nat) {
    a < b && b + 12 <= |text| && text[a..a + 12] == text[b..b + 12]
  }

  /** One round that a forgiven streak may hold. */
  ghost predicate LooksBenign(row: Row, decode: Decoder) {
    && !row.report.ok && !row.report.exact && row.recent.Some? && SaysTwelveTwice(decode(row.recent.value))
    && Readable(decode([row.report.predicted])) && Readable(decode([row.report.next]))
  }

  lemma BenignMeans(row: Row, decode: Decoder)
    ensures LooksBenign(row, decode) <==> !row.report.ok && PatternOk(row, decode) && TokensOk(row, decode)
  {
    ReadableMeans(decode([row.report.predicted]));
    ReadableMeans(decode([row.report.next]));
    hide Coherent, Readable;
    if row.recent.Some? {
      TwelveMeans(decode(row.recent.value));
    }
  }

  lemma ReadableMeans(text: string)
    ensures Coherent(text) <==> Readable(text)
  {
  }

  lemma TwelveMeans(text: string)
    ensures Detected(text, MIN_REPEAT) <==> SaysTwelveTwice(text)
  {
    if Detected(text, MIN_REPEAT) {
      var a: nat, b: nat :| a < b && b + 12 <= |text| && Sub(text, a, 12) == Sub(text, b, 12);
      assert SameTwelve(text, a, b);
    }
    if SaysTwelveTwice(text) {
      var a: nat, b: nat :| SameTwelve(text, a, b);
      assert Sub(text, a, 12) == Sub(text, b, 12);
    }
  }

  /** One or two benign rounds in a row, with a round within tolerance right after them and, unless
      they are the first, right before. */
  ghost predicate Healed(rows: seq<Row>, decode: Decoder, i: nat, j: nat) {
    && i < j < |rows| && j - i <= 2 && (i == 0 || rows[i - 1].report.ok) && rows[j].report.ok
    && forall m | i <= m < j :: LooksBenign(rows[m], decode)
  }

  /** A round is forgiven exactly when it is one of at most two benign rounds that heal at once. */
  lemma ForgivenIff(rows: seq<Row>, k: nat, decode: Decoder)
    requires k < |rows|
    ensures Forgiven(rows, k, decode) <==> exists i: nat, j: nat :: i <= k < j && Healed(rows, decode, i, j)
  {
    hide LooksBenign, StreakFrom, StreakTo, PatternOk, TokensOk;
    forall m | 0 <= m < |rows|
      ensures LooksBenign(rows[m], decode) <==>
              !rows[m].report.ok && PatternOk(rows[m], decode) && TokensOk(rows[m], decode)
    {
      BenignMeans(rows[m], decode);
    }
    if Forgiven(rows, k, decode) {
      InOneStreak(rows, k, 0, 0);
      var i, j := StreakFrom(rows, k), StreakTo(rows, k);
      forall m | i <= m < j ensures LooksBenign(rows[m], decode) {
        assert rows[i..j][m - i] == rows[m];
      }
      assert Healed(rows, decode, i, j);
    }
    if i: nat, j: nat :| i <= k < j && Healed(rows, decode, i, j) {
      InOneStreak(rows, k, i, j);
      assert forall m | 0 <= m < j - i :: rows[i..j][m] == rows[i + m];
    }
  }

  /** What a failure report says of its round: whether anything follows its streak, whether the
      streak is one or two rounds long, and whether all its windows and all its tokens pass. */
  lemma FailureSaysWhy(req: nat, rows: seq<Row>, k: nat, decode: Decoder, i: nat, j: nat)
    requires Streak(rows, i, j) && i <= k < j
    ensures var f := FailureAt(req, rows, k, decode);
            && f.req == req && f.row == rows[k]
            && (f.resolves <==> j < |rows|) && (f.short <==> j - i <= 2)
            && (f.pattern <==> forall m | i <= m < j ::
                  rows[m].recent.Some? && SaysTwelveTwice(decode(rows[m].recent.value)))
            && (f.tokens <==> forall m | i <= m < j ::
                  && !rows[m].report.exact && Readable(decode([rows[m].report.predicted]))
                  && Readable(decode([rows[m].report.next])))
  {
    hide StreakFrom, StreakTo, Readable, Coherent, Detected, SaysTwelveTwice;
    InOneStreak(rows, k, i, j);
    forall m | i <= m < j
      ensures rows[i..j][m - i] == rows[m]
      ensures PatternOk(rows[m], decode) <==>
              rows[m].recent.Some? && SaysTwelveTwice(decode(rows[m].recent.value))
      ensures TokensOk(rows[m], decode) <==>
              && !rows[m].report.exact && Readable(decode([rows[m].report.predicted]))
              && Readable(decode([rows[m].report.next]))
    {
      if rows[m].recent.Some? {
        TwelveMeans(decode(rows[m].recent.value));
      }
      ReadableMeans(decode([rows[m].report.predicted]));
      ReadableMeans(decode([rows[m].report.next]));
    }
    assert forall m | 0 <= m < j - i :: rows[i..j][m] == rows[i + m];
  }
}
