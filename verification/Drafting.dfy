/**
  The draft model's cache and its propose loop.

  A draft forward says separately where it writes (`start`) and how much history its
  attention may read (`prior`).  Step 0 of a proposal teaches the draft cache the real
  tokens just committed; the exploratory steps after it run on the draft's own output and
  their entries are overwritten by the next real step 0.
 */
module Drafting {
  import opened Network

  /** `b` written over `a` from `pos` on; entries past it stay, however stale. */
  function Overlay<T>(a: seq<T>, pos: nat, b: seq<T>): (c: seq<T>)
    requires pos <= |a|
    ensures pos + |b| <= |c| && |a| <= |c|
  {
    a[..pos] + b + if pos + |b| <= |a| then a[pos + |b|..] else []
  }

  lemma OverlayPrefix<T>(a: seq<T>, pos: nat, b: seq<T>, m: nat)
    requires m <= pos <= |a|
    ensures Overlay(a, pos, b)[..m] == a[..m]
    ensures Overlay(a, pos, b)[..pos + |b|] == a[..pos] + b
  {
  }

  /** The first n entries of a cache. */
  function Visible(cache: seq<Kv>, n: nat): seq<Kv> {
    if n <= |cache| then cache[..n] else cache
  }

  datatype Call = Call(start: nat, prior: nat, size: nat)

  /** A proposal in progress: the cache, the tokens proposed, the draft's last hidden
      output and every forward made. */
  datatype Trail = Trail(cache: seq<Kv>, tokens: seq<Token>, hidden: Hidden, calls: seq<Call>)

  /** The entries a run of tokens writes from `start` on. */
  function DraftRows(net: Net, toks: seq<Token>, hids: seq<Hidden>, start: nat): (r: seq<Kv>)
    requires |toks| == |hids|
    ensures |r| == |toks|
  {
    if toks == [] then []
    else
      var n := |toks| - 1;
      DraftRows(net, toks[..n], hids[..n], start) + [net.draftKv(toks[n], hids[n], start + n)]
  }

  lemma {:induction false} DraftRowsAppend(net: Net, a: seq<Token>, x: seq<Hidden>, b: seq<Token>, y: seq<Hidden>,
        start: nat)
    requires |a| == |x| && |b| == |y|
    ensures DraftRows(net, a + b, x + y, start) == DraftRows(net, a, x, start) + DraftRows(net, b, y, start + |a|)
  {
    if b == [] {
      assert a + b == a && x + y == x;
    } else {
      var n := |b| - 1;
      DraftRowsAppend(net, a, x, b[..n], y[..n], start);
      assert (a + b)[..|a + b| - 1] == a + b[..n] && (x + y)[..|a + b| - 1] == x + y[..n];
    }
  }

  /** One draft forward: all its entries are written, then row j reads the first
      prior + j + 1 positions. */
  function DraftOuts(net: Net, cache: seq<Kv>, toks: seq<Token>, hids: seq<Hidden>, start: nat,
        prior: nat): (o: seq<Hidden>)
    requires |toks| == |hids|
    ensures |o| == |toks|
    ensures forall j | 0 <= j < |toks| ::
              o[j] == net.draftOut(toks[j], hids[j], start + j, Visible(cache, prior + j + 1))
  {
    seq(|toks|, j requires 0 <= j < |toks| => net.draftOut(toks[j], hids[j], start + j, Visible(cache, prior + j + 1)))
  }

  function Sync(net: Net, cache: seq<Kv>, toks: seq<Token>, hids: seq<Hidden>, start: nat, prior: nat): (t: Trail)
    requires 0 < |toks| == |hids| && start <= |cache|
    ensures |t.cache| >= start + |toks| && |t.tokens| == 1
  {
    var c := Overlay(cache, start, DraftRows(net, toks, hids, start));
    var last := DraftOuts(net, c, toks, hids, start, prior)[|toks| - 1];
    Trail(c, [Argmax(net.draftHead(last))], last, [Call(start, prior, |toks|)])
  }

  /** One exploratory step: the draft reads its own last token and hidden output. */
  function Explore(net: Net, u: Trail, at: nat, seen: nat): (v: Trail)
    requires at <= |u.cache| && u.tokens != []
    ensures at + 1 <= |v.cache| && |v.tokens| == |u.tokens| + 1
  {
    var tok := u.tokens[|u.tokens| - 1];
    var c := Overlay(u.cache, at, [net.draftKv(tok, u.hidden, at)]);
    var out := net.draftOut(tok, u.hidden, at, Visible(c, seen + 1));
    Trail(c, u.tokens + [Argmax(net.draftHead(out))], out, u.calls + [Call(at, seen, 1)])
  }

  /** n exploratory steps after `t`.  `frozen` is the historical bug: the history length
      handed to attention stops advancing while the write position keeps moving. */
  function Continue(net: Net, t: Trail, pos: nat, prior: nat, frozen: bool, n: nat): (u: Trail)
    requires pos <= |t.cache| && t.tokens != []
    ensures pos + n <= |u.cache| && |u.tokens| == |t.tokens| + n
  {
    if n == 0 then t
    else Explore(net, Continue(net, t, pos, prior, frozen, n - 1), pos + n - 1,
                 if frozen then prior else prior + n - 1)
  }

  /** The whole propose funnel for one slot. */
  function Propose(net: Net, cache: seq<Kv>, toks: seq<Token>, hids: seq<Hidden>, start: nat, prior: nat, frozen: bool,
        k: nat): Trail
    requires 0 < |toks| == |hids| && start <= |cache| && 1 <= k
  {
    Continue(net, Sync(net, cache, toks, hids, start, prior), start + |toks|, prior + |toks|, frozen, k - 1)
  }

  /** The forwards exploration makes. */
  function ExploreCalls(pos: nat, prior: nat, frozen: bool, n: nat): (c: seq<Call>)
    ensures |c| == n
    ensures forall j | 0 <= j < n :: c[j] == Call(pos + j, if frozen then prior else prior + j, 1)
  {
    if n == 0 then []
    else ExploreCalls(pos, prior, frozen, n - 1) + [Call(pos + n - 1, if frozen then prior else prior + n - 1, 1)]
  }

  lemma {:induction false} CallsOfContinue(net: Net, t: Trail, pos: nat, prior: nat, frozen: bool, n: nat)
    requires pos <= |t.cache| && t.tokens != []
    ensures Continue(net, t, pos, prior, frozen, n).calls == t.calls + ExploreCalls(pos, prior, frozen, n)
  {
    hide Overlay, Visible;
    if n > 0 {
      CallsOfContinue(net, t, pos, prior, frozen, n - 1);
    }
  }

  lemma CallsOfPropose(net: Net, cache: seq<Kv>, toks: seq<Token>, hids: seq<Hidden>, start: nat, prior: nat,
        frozen: bool, k: nat)
    requires 0 < |toks| == |hids| && start <= |cache| && 1 <= k
    ensures Propose(net, cache, toks, hids, start, prior, frozen, k).calls
         == [Call(start, prior, |toks|)] + ExploreCalls(start + |toks|, prior + |toks|, frozen, k - 1)
  {
    CallsOfContinue(net, Sync(net, cache, toks, hids, start, prior), start + |toks|, prior + |toks|, frozen, k - 1);
  }

  /** The white-box invariant, for every k: with the fixed loop every forward's claimed
      history equals its write position iff the caller's did; frozen, exploratory step j
      claims exactly j - 1 positions too few. */
  lemma PriorMatchesStart(net: Net, cache: seq<Kv>, toks: seq<Token>, hids: seq<Hidden>, start: nat, prior: nat, k: nat)
    requires 0 < |toks| == |hids| && start <= |cache| && 1 <= k
    ensures var calls := Propose(net, cache, toks, hids, start, prior, false, k).calls;
            |calls| == k && ((forall c | c in calls :: c.prior == c.start) <==> prior == start)
    ensures var calls := Propose(net, cache, toks, hids, start, start, true, k).calls;
            |calls| == k && forall j | 1 <= j < k :: calls[j].start - calls[j].prior == j - 1
  {
    CallsOfPropose(net, cache, toks, hids, start, prior, false, k);
    CallsOfPropose(net, cache, toks, hids, start, start, true, k);
    var calls := Propose(net, cache, toks, hids, start, prior, false, k).calls;
    assert calls[0] == Call(start, prior, |toks|);
    var more := ExploreCalls(start + |toks|, start + |toks|, true, k - 1);
    assert forall j | 0 <= j < k - 1 :: more[j].start - more[j].prior == j;
  }

  /** Longer proposals extend shorter ones. */
  lemma {:induction false} ContinueExtends(net: Net, t: Trail, pos: nat, prior: nat, frozen: bool, m: nat, n: nat,
        i: nat)
    requires pos <= |t.cache| && t.tokens != [] && m <= n && i < |t.tokens| + m
    ensures Continue(net, t, pos, prior, frozen, n).tokens[i] == Continue(net, t, pos, prior, frozen, m).tokens[i]
    decreases n
  {
    if m < n {
      ContinueExtends(net, t, pos, prior, frozen, m, n - 1, i);
    }
  }

  /** The frozen loop's first two drafts are right for every model... */
  lemma FrozenFirstTwoAgree(net: Net, cache: seq<Kv>, toks: seq<Token>, hids: seq<Hidden>, start: nat, k: nat, j: nat)
    requires 0 < |toks| == |hids| && start <= |cache| && j < k && j < 2
    ensures Propose(net, cache, toks, hids, start, start, true, k).tokens[j]
         == Propose(net, cache, toks, hids, start, start, false, k).tokens[j]
  {
    hide Sync, Explore;
    var t, pos := Sync(net, cache, toks, hids, start, start), start + |toks|;
    ContinueExtends(net, t, pos, pos, false, j, k - 1, j);
    ContinueExtends(net, t, pos, pos, true, j, k - 1, j);
    assert Continue(net, t, pos, pos, true, 0) == Continue(net, t, pos, pos, false, 0);
    if j == 1 {
      assert Continue(net, t, pos, pos, true, 1) == Continue(net, t, pos, pos, false, 1);
    }
  }

  /** ...and its third need not be: for every k >= 3 some model proposes another one. */
  lemma FrozenThirdCanDiffer(k: nat)
    requires 3 <= k
    ensures Propose(Counting(), [], [1], [1], 0, 0, false, k).tokens[2]
         != Propose(Counting(), [], [1], [1], 0, 0, true, k).tokens[2]
  {
    CountingThird(k, false);
    CountingThird(k, true);
  }

  lemma CountingThird(k: nat, frozen: bool)
    requires 3 <= k
    ensures Propose(Counting(), [], [1], [1], 0, 0, frozen, k).tokens[2] == if frozen then 0 else 1
  {
    hide Sync, Explore, Continue, Counting;
    var net: Net := Counting();
    var t := Sync(net, [], [1], [1], 0, 0);
    ContinueExtends(net, t, 1, 1, frozen, 2, k - 1, 2);
    ContinueStep(net, t, 1, 1, frozen, 1);
    CountingExplore(Continue(net, t, 1, 1, frozen, 1), 2, if frozen then 1 else 2);
    CountingChoice(if frozen then 2 else 3);
  }

  lemma ContinueZero(net: Net, t: Trail, pos: nat, prior: nat, frozen: bool)
    requires pos <= |t.cache| && t.tokens != []
    ensures Continue(net, t, pos, prior, frozen, 0) == t
  {
  }

  lemma ContinueStep(net: Net, t: Trail, pos: nat, prior: nat, frozen: bool, n: nat)
    requires pos <= |t.cache| && t.tokens != []
    ensures Continue(net, t, pos, prior, frozen, n + 1)
         == Explore(net, Continue(net, t, pos, prior, frozen, n), pos + n, if frozen then prior else prior + n)
  {
    hide Explore;
  }

  lemma CountingExplore(u: Trail, at: nat, seen: nat)
    requires at <= |u.cache| && u.tokens != [] && seen <= at
    ensures var v := Explore(Counting(), u, at, seen);
            v.hidden == seen + 1 && v.tokens == u.tokens + [Argmax(Counting().draftHead(seen + 1))]
  {
    var v := Explore(Counting(), u, at, seen);
    assert |Visible(v.cache, seen + 1)| == seen + 1;
  }

  lemma CountingChoice(h: Hidden)
    ensures Argmax(Counting().draftHead(h)) == if h % 2 == 0 then 0 else 1
  {
    var l := Counting().draftHead(h);
    assert |l| == 2 && l[Argmax(l)] >= l[0] && l[Argmax(l)] >= l[1];
  }

  // ---------------------------------------------------------------------------
  // What a slot's history alone determines.
  // ---------------------------------------------------------------------------

  /** The token the draft reads at each history position: the history shifted by one,
      ending in the pending anchor. */
  function Shifted(h: seq<Token>, anchor: Token): (s: seq<Token>)
    ensures |s| == |h|
  {
    if h == [] then [] else h[1..] + [anchor]
  }

  /** The target's hidden output at every position of a history. */
  function Hiddens(net: Net, h: seq<Token>): (r: seq<Hidden>)
    ensures |r| == |h|
  {
    if h == [] then [] else Hiddens(net, h[..|h| - 1]) + [HiddenOf(net, h)]
  }

  lemma {:induction false} HiddensGrow(net: Net, h: seq<Token>, news: seq<Token>, hids: seq<Hidden>)
    requires HiddensAlong(net, h, news, hids)
    ensures Hiddens(net, h + news) == Hiddens(net, h) + hids
  {
    hide HiddenOf, Fold;
    if news == [] {
      assert h + news == h;
    } else {
      var n := |news| - 1;
      HiddensPrefix(net, h, news, hids, n);
      HiddensGrow(net, h, news[..n], hids[..n]);
      assert (h + news)[..|h + news| - 1] == h + news[..n];
      assert hids[n] == HiddenOf(net, h + news[..n + 1]) && news[..n + 1] == news;
      assert hids == hids[..n] + [hids[n]];
    }
  }

  /** The draft cache a history deserves. */
  function DraftKvs(net: Net, h: seq<Token>, anchor: Token): (d: seq<Kv>)
    ensures |d| == |h|
  {
    DraftRows(net, Shifted(h, anchor), Hiddens(net, h), 0)
  }

  /** The proposal a history deserves, on a clean cache. */
  function DraftStart(net: Net, h: seq<Token>, anchor: Token): Trail
    requires h != []
  {
    var d := DraftKvs(net, h, anchor);
    var o := net.draftOut(anchor, HiddenOf(net, h), |h| - 1, d);
    Trail(d, [Argmax(net.draftHead(o))], o, [])
  }

  function Drafts(net: Net, h: seq<Token>, anchor: Token, k: nat): (d: seq<Token>)
    requires h != [] && 1 <= k
    ensures |d| == k
  {
    Continue(net, DraftStart(net, h, anchor), |h|, |h|, false, k - 1).tokens
  }

  /** Committing `news` after `h` appends exactly their entries: no earlier entry of the
      draft cache changes, because the old anchor is the first of the new tokens. */
  lemma DraftKvsGrow(net: Net, h: seq<Token>, anchor: Token, news: seq<Token>, next: Token, hids: seq<Hidden>)
    requires news != [] && (h != [] ==> news[0] == anchor)
    requires HiddensAlong(net, h, news, hids)
    ensures DraftKvs(net, h + news, next) == DraftKvs(net, h, anchor) + DraftRows(net, Shifted(news, next), hids, |h|)
  {
    hide DraftRows, Hiddens, HiddenOf, Fold, Shifted;
    ShiftedGrow(h, anchor, news, next);
    HiddensGrow(net, h, news, hids);
    DraftRowsAppend(net, Shifted(h, anchor), Hiddens(net, h), Shifted(news, next), hids, 0);
  }

  lemma ShiftedGrow(h: seq<Token>, anchor: Token, news: seq<Token>, next: Token)
    requires news != [] && (h != [] ==> news[0] == anchor)
    ensures Shifted(h + news, next) == Shifted(h, anchor) + Shifted(news, next)
  {
    if h == [] {
      assert h + news == news;
    } else {
      assert (h + news)[1..] == h[1..] + news;
      assert news == [anchor] + news[1..];
    }
  }

  /** Two trails agree on all a proposal can read from `pos` on. */
  ghost predicate Agree(t: Trail, t': Trail, pos: nat)
  {
    && pos <= |t.cache| && pos <= |t'.cache| && t.cache[..pos] == t'.cache[..pos]
    && t.tokens == t'.tokens != [] && t.hidden == t'.hidden
  }

  lemma ExploreAgrees(net: Net, u: Trail, u': Trail, at: nat)
    requires Agree(u, u', at)
    ensures Agree(Explore(net, u, at, at), Explore(net, u', at, at), at + 1)
  {
    var entry := [net.draftKv(u.tokens[|u.tokens| - 1], u.hidden, at)];
    OverlayPrefix(u.cache, at, entry, at);
    OverlayPrefix(u'.cache, at, entry, at);
  }

  /** Whatever lies past `pos` in the draft cache is never read. */
  lemma {:induction false} StaleEntriesAreNeverRead(net: Net, t: Trail, t': Trail, pos: nat, n: nat)
    requires Agree(t, t', pos)
    ensures Agree(Continue(net, t, pos, pos, false, n), Continue(net, t', pos, pos, false, n), pos + n)
  {
    if n > 0 {
      StaleEntriesAreNeverRead(net, t, t', pos, n - 1);
      ExploreAgrees(net, Continue(net, t, pos, pos, false, n - 1), Continue(net, t', pos, pos, false, n - 1),
                    pos + n - 1);
    }
  }

  /** Exploration leaves the entries below its start alone. */
  lemma {:induction false} ContinueKeepsPrefix(net: Net, t: Trail, pos: nat, prior: nat, frozen: bool, n: nat)
    requires pos <= |t.cache| && t.tokens != []
    ensures Continue(net, t, pos, prior, frozen, n).cache[..pos] == t.cache[..pos]
  {
    if n > 0 {
      ContinueKeepsPrefix(net, t, pos, prior, frozen, n - 1);
      var u := Continue(net, t, pos, prior, frozen, n - 1);
      OverlayPrefix(u.cache, pos + n - 1, [net.draftKv(u.tokens[|u.tokens| - 1], u.hidden, pos + n - 1)], pos);
    }
  }

  /** Step 0 on a cache that is right below the old length leaves it right below the new
      length, and its output is the history's own. */
  lemma SyncFollowsHistory(net: Net, cache: seq<Kv>, h: seq<Token>, anchor: Token, news: seq<Token>, next: Token,
        hids: seq<Hidden>)
    requires |h| <= |cache| && cache[..|h|] == DraftKvs(net, h, anchor)
    requires news != [] && (h != [] ==> news[0] == anchor)
    requires HiddensAlong(net, h, news, hids)
    ensures var t := Sync(net, cache, Shifted(news, next), hids, |h|, |h|);
            && Agree(t, DraftStart(net, h + news, next), |h + news|)
            && t.cache[..|h + news|] == DraftKvs(net, h + news, next)
  {
    hide Hiddens, HiddenOf, Fold, DraftRows;
    var all, toks := h + news, Shifted(news, next);
    var rows := DraftRows(net, toks, hids, |h|);
    DraftKvsGrow(net, h, anchor, news, next, hids);
    var clean := DraftKvs(net, all, next);
    var c := Overlay(cache, |h|, rows);
    assert c[..|all|] == clean by {
      OverlayPrefix(cache, |h|, rows, |h|);
    }
    var n := |news| - 1;
    assert toks[n] == next;
    assert hids[n] == HiddenOf(net, all) by {
      assert news[..n + 1] == news;
    }
    assert DraftOuts(net, c, toks, hids, |h|, |h|)[n] == net.draftOut(next, hids[n], |h| + n, Visible(c, |h| + n + 1));
    assert Visible(c, |h| + n + 1) == clean;
    assert clean[..|all|] == clean;
  }

  /** The whole funnel: the cache is right below the new length, and the proposal is the
      one the history deserves. */
  lemma ProposeFollowsHistory(net: Net, cache: seq<Kv>, h: seq<Token>, anchor: Token, news: seq<Token>, next: Token,
        hids: seq<Hidden>, k: nat)
    requires |h| <= |cache| && cache[..|h|] == DraftKvs(net, h, anchor)
    requires news != [] && (h != [] ==> news[0] == anchor) && 1 <= k
    requires HiddensAlong(net, h, news, hids)
    ensures var p := Propose(net, cache, Shifted(news, next), hids, |h|, |h|, false, k);
            && p.tokens == Drafts(net, h + news, next, k)
            && |h + news| <= |p.cache|
            && p.cache[..|h + news|] == DraftKvs(net, h + news, next)
  {
    hide Sync, DraftStart, DraftKvs, HiddenOf, Fold, Overlay, Explore;
    var all := h + news;
    var t := Sync(net, cache, Shifted(news, next), hids, |h|, |h|);
    SyncFollowsHistory(net, cache, h, anchor, news, next, hids);
    StaleEntriesAreNeverRead(net, t, DraftStart(net, all, next), |all|, k - 1);
    ContinueKeepsPrefix(net, t, |all|, |all|, false, k - 1);
  }

  // ---------------------------------------------------------------------------
  // The proposal, position by position.
  // ---------------------------------------------------------------------------

  /** The hidden output read at position p: the target's own within the history, the draft's past
      it. */
  ghost function ReadAt(net: Net, h: seq<Token>, o: seq<Hidden>, p: nat): Hidden
    requires p < |h| + |o|
  {
    if p < |h| then HiddenOf(net, h[..p + 1]) else o[p - |h|]
  }

  /** The entry of position p is made from the token after it and the hidden output at it. */
  ghost predicate EntryAt(net: Net, h: seq<Token>, all: seq<Token>, o: seq<Hidden>, e: seq<Kv>, p: nat)
    requires p < |h| + |o| && p < |e| && p + 1 < |all|
  {
    e[p] == net.draftKv(all[p + 1], ReadAt(net, h, o, p), p)
  }

  /** Draft j is the draft model's first choice after the anchor and the drafts before it: its
      output at that position, over the entries of every position up to it and no other. */
  ghost predicate DraftAt(net: Net, h: seq<Token>, all: seq<Token>, d: seq<Token>, o: seq<Hidden>, e: seq<Kv>, j: nat)
    requires h != [] && j < |d| == |o| && |h| + j <= |e| && |h| + j < |all|
  {
    && o[j] == net.draftOut(all[|h| + j], ReadAt(net, h, o, |h| + j - 1), |h| + j - 1, e[..|h| + j])
    && d[j] == Argmax(net.draftHead(o[j]))
  }

  /** A proposal with its outputs and the entries it read, nothing left of any earlier one. */
  ghost predicate Drafted(net: Net, h: seq<Token>, anchor: Token, d: seq<Token>, o: seq<Hidden>, e: seq<Kv>) {
    var all := h + [anchor] + d;
    && h != [] && d != [] && |o| == |d| && |e| == |h| + |d| - 1
    && (forall p | 0 <= p < |e| :: EntryAt(net, h, all, o, e, p))
    && forall j | 0 <= j < |d| :: DraftAt(net, h, all, d, o, e, j)
  }

  lemma {:induction false} DraftKvAt(net: Net, toks: seq<Token>, hids: seq<Hidden>, start: nat, p: nat)
    requires p < |toks| == |hids|
    ensures DraftRows(net, toks, hids, start)[p] == net.draftKv(toks[p], hids[p], start + p)
  {
    if p < |toks| - 1 {
      DraftKvAt(net, toks[..|toks| - 1], hids[..|toks| - 1], start, p);
    }
  }

  lemma {:induction false} HiddensAt(net: Net, h: seq<Token>, p: nat)
    requires p < |h|
    ensures Hiddens(net, h)[p] == HiddenOf(net, h[..p + 1])
  {
    hide HiddenOf;
    if p < |h| - 1 {
      HiddensAt(net, h[..|h| - 1], p);
      assert h[..|h| - 1][..p + 1] == h[..p + 1];
    } else {
      assert h[..p + 1] == h;
    }
  }

  lemma {:induction false} StartDrafted(net: Net, h: seq<Token>, anchor: Token)
    requires h != []
    ensures var t := DraftStart(net, h, anchor); Drafted(net, h, anchor, t.tokens, [t.hidden], t.cache)
  {
    hide HiddenOf, DraftRows, Hiddens;
    var t := DraftStart(net, h, anchor);
    var all, e := h + [anchor] + t.tokens, t.cache;
    assert h[..|h|] == h && e[..|h|] == e;
    forall p | 0 <= p < |e| ensures EntryAt(net, h, all, [t.hidden], e, p) {
      DraftKvAt(net, Shifted(h, anchor), Hiddens(net, h), 0, p);
      HiddensAt(net, h, p);
    }
  }

  /** The first draft, and every further one, extends the proposal by one position. */
  lemma {:induction false} ContinueDrafted(net: Net, h: seq<Token>, anchor: Token, n: nat)
    returns (o: seq<Hidden>, e: seq<Kv>)
    requires h != []
    ensures var u := Continue(net, DraftStart(net, h, anchor), |h|, |h|, false, n);
            && Drafted(net, h, anchor, u.tokens, o, e) && |u.tokens| == n + 1 && o[n] == u.hidden
            && e == u.cache[..|h| + n]
  {
    hide HiddenOf, Explore;
    var t := DraftStart(net, h, anchor);
    if n == 0 {
      StartDrafted(net, h, anchor);
      o, e := [t.hidden], t.cache;
      assert e[..|h|] == e;
    } else {
      hide DraftStart, Drafted;
      var u := Continue(net, t, |h|, |h|, false, n - 1);
      o, e := ContinueDrafted(net, h, anchor, n - 1);
      o, e := DraftedExtends(net, h, anchor, u, o, e);
    }
  }

  lemma DraftedExtends(net: Net, h: seq<Token>, anchor: Token, u: Trail, o: seq<Hidden>, e: seq<Kv>)
    returns (o': seq<Hidden>, e': seq<Kv>)
    requires Drafted(net, h, anchor, u.tokens, o, e) && o[|o| - 1] == u.hidden
    requires |h| + |o| - 1 <= |u.cache| && e == u.cache[..|h| + |o| - 1]
    ensures var v := Explore(net, u, |e|, |e|);
            && Drafted(net, h, anchor, v.tokens, o', e') && |o'| == |o| + 1 && o'[|o|] == v.hidden
            && |e| + 1 <= |v.cache| && e' == v.cache[..|e| + 1]
  {
    hide HiddenOf;
    var d, at := u.tokens, |e|;
    var v := Explore(net, u, at, at);
    var entry := net.draftKv(d[|d| - 1], u.hidden, at);
    OverlayPrefix(u.cache, at, [entry], at);
    o', e' := o + [v.hidden], e + [entry];
    assert v.cache[..at + 1] == e' == Visible(v.cache, at + 1);
    var all, all' := h + [anchor] + d, h + [anchor] + v.tokens;
    assert all'[..|all|] == all && all'[at + 1] == d[|d| - 1];
    forall p | 0 <= p < |e'| ensures EntryAt(net, h, all', o', e', p) {
      assert p < at ==> EntryAt(net, h, all, o, e, p) && all'[p + 1] == all[p + 1];
    }
    forall j | 0 <= j < |v.tokens| ensures DraftAt(net, h, all', v.tokens, o', e', j) {
      if j < |d| {
        assert DraftAt(net, h, all, d, o, e, j) && all'[|h| + j] == all[|h| + j];
        assert e'[..|h| + j] == e[..|h| + j];
      } else {
        assert e'[..|h| + j] == e';
      }
    }
  }

  /** Two proposals at one history agree from the front. */
  lemma {:induction false} DraftedAgree(net: Net, h: seq<Token>, anchor: Token, d: seq<Token>, o: seq<Hidden>,
        e: seq<Kv>, d': seq<Token>, o': seq<Hidden>, e': seq<Kv>, j: nat)
    requires Drafted(net, h, anchor, d, o, e) && Drafted(net, h, anchor, d', o', e') && j <= |d| == |d'|
    ensures d[..j] == d'[..j] && o[..j] == o'[..j]
  {
    if j > 0 {
      var i := j - 1;
      DraftedAgree(net, h, anchor, d, o, e, d', o', e', i);
      var all, all' := h + [anchor] + d, h + [anchor] + d';
      assert all[..|h| + j] == h + [anchor] + d[..i] == all'[..|h| + j];
      forall p | 0 <= p < |h| + i ensures e[p] == e'[p] {
        assert EntryAt(net, h, all, o, e, p) && EntryAt(net, h, all', o', e', p);
        assert all[p + 1] == all[..|h| + j][p + 1] == all'[p + 1];
        assert p >= |h| ==> o[p - |h|] == o[..i][p - |h|] == o'[p - |h|];
      }
      assert e[..|h| + i] == e'[..|h| + i];
      assert DraftAt(net, h, all, d, o, e, i) && DraftAt(net, h, all', d', o', e', i);
      assert all[|h| + i] == all[..|h| + j][|h| + i] == all'[|h| + i];
      assert i > 0 ==> o[i - 1] == o[..i][i - 1] == o'[i - 1];
      assert d[..j] == d[..i] + [d[i]] && d'[..j] == d'[..i] + [d'[i]];
      assert o[..j] == o[..i] + [o[i]] && o'[..j] == o'[..i] + [o'[i]];
    }
  }

  /** What a history's proposal is: the one and only choice of k tokens in which each is the draft
      model's first choice over the history's entries and those of the drafts before it. */
  lemma DraftsAreDrafted(net: Net, h: seq<Token>, anchor: Token, k: nat, d: seq<Token>)
    requires h != [] && 1 <= k == |d|
    ensures d == Drafts(net, h, anchor, k) <==> exists o, e :: Drafted(net, h, anchor, d, o, e)
  {
    hide DraftStart, Continue, Drafted;
    var own, entries := ContinueDrafted(net, h, anchor, k - 1);
    if o, e :| Drafted(net, h, anchor, d, o, e) {
      DraftedAgree(net, h, anchor, d, o, e, Drafts(net, h, anchor, k), own, entries, k);
      assert d[..k] == d && Drafts(net, h, anchor, k)[..k] == Drafts(net, h, anchor, k);
    }
  }
}
