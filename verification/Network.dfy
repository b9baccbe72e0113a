/**
  The two models the runtime drives, reduced to what its bookkeeping can observe.

  The target model is hybrid: attention layers that read a cache addressed by
  position, and recurrent (GDN) layers that fold every token into one state with
  no position to roll back to.  The draft model (MTP) has one attention layer and
  no recurrent state.  Both are arbitrary deterministic functions here.  A tensor
  is its bit pattern, coded as an integer; a row of logits is a sequence of reals.
 */
module Network {
  type Token = nat
  type Gdn = int
  type Kv = int
  type Hidden = int
  /** The state a slot that was never written starts from: all zeros. */
  const BLANK: Gdn := 0

  type Logits = l: seq<real> | |l| > 0 witness [0.0]

  /** What one token makes the target compute: the state after it, the cache entry it
      writes at its own position, and its hidden output. */
  datatype Cell = Cell(gdn: Gdn, kv: Kv, hidden: Hidden)

  datatype Weights = Weights(
    vocab: nat,
    cell: (Gdn, seq<Kv>, Token) -> Cell,
    head: Hidden -> Logits,
    draftKv: (Token, Hidden, nat) -> Kv,
    draftOut: (Token, Hidden, nat, seq<Kv>) -> Hidden,
    draftHead: Hidden -> Logits)
  {
    ghost predicate Valid() {
      && vocab > 0
      && (forall h: Hidden :: |head(h)| == vocab)
      && (forall h: Hidden :: |draftHead(h)| == vocab)
    }
  }

  type Net = w: Weights | w.Valid() ghost witness Counting()

  /** A small network used as a concrete witness: its recurrent state counts the tokens
      read and its hidden output is that count.  Its draft layer reports how many cache
      entries it was allowed to see. */
  ghost function Counting(): (w: Weights)
    ensures w.Valid()
  {
    Weights(2,
            (g: Gdn, kvs: seq<Kv>, t: Token) => Cell(g + 1, t, g + 1),
            (h: Hidden) => if h % 2 == 0 then [1.0, 0.0] else [0.0, 1.0],
            (t: Token, h: Hidden, pos: nat) => t,
            (t: Token, h: Hidden, pos: nat, visible: seq<Kv>) => |visible|,
            (h: Hidden) => if h % 2 == 0 then [1.0, 0.0] else [0.0, 1.0])
  }

  /** The greedy choice: the first position holding the largest logit. */
  function Argmax(l: Logits): (t: Token)
    ensures t < |l|
    ensures forall i | 0 <= i < |l| :: l[i] <= l[t]
    ensures forall i | 0 <= i < t :: l[i] < l[t]
  {
    if |l| == 1 then 0
    else
      var t := Argmax(l[..|l| - 1]);
      if l[|l| - 1] > l[t] then |l| - 1 else t
  }

  /** Everything the target remembers after reading a history. */
  datatype Context = Context(gdn: Gdn, kvs: seq<Kv>)

  function Fold(net: Net, h: seq<Token>): (c: Context)
    ensures |c.kvs| == |h|
  {
    if h == [] then Context(BLANK, [])
    else
      var c := Fold(net, h[..|h| - 1]);
      var out := net.cell(c.gdn, c.kvs, h[|h| - 1]);
      Context(out.gdn, c.kvs + [out.kv])
  }

  /** The hidden output at the last position of a history. */
  function HiddenOf(net: Net, h: seq<Token>): Hidden
    requires h != []
  {
    var c := Fold(net, h[..|h| - 1]);
    net.cell(c.gdn, c.kvs, h[|h| - 1]).hidden
  }

  /** The target's own greedy next token. */
  function Next(net: Net, h: seq<Token>): (t: Token)
    requires h != []
    ensures t < net.vocab
  {
    Argmax(net.head(HiddenOf(net, h)))
  }

  /** What plain one-token-at-a-time greedy decoding generates from `h`. */
  function Greedy(net: Net, h: seq<Token>, n: nat): (g: seq<Token>)
    requires h != []
    ensures |g| == n
  {
    if n == 0 then []
    else
      var g := Greedy(net, h, n - 1);
      g + [Next(net, h + g)]
  }

  /** `toks` is a greedy continuation of `h`, said one position at a time. */
  ghost predicate IsGreedy(net: Net, h: seq<Token>, toks: seq<Token>)
    requires h != []
  {
    forall i | 0 <= i < |toks| :: toks[i] == Next(net, h + toks[..i])
  }

  /** One more token keeps a continuation greedy iff it is the greedy choice there. */
  lemma GreedySnoc(net: Net, h: seq<Token>, front: seq<Token>, t: Token)
    requires h != []
    ensures IsGreedy(net, h, front + [t]) <==> IsGreedy(net, h, front) && t == Next(net, h + front)
  {
    var toks := front + [t];
    forall i | 0 <= i < |front| ensures toks[i] == front[i] && toks[..i] == front[..i] {}
    assert toks[|front|] == t && toks[..|front|] == front;
    if IsGreedy(net, h, toks) {
      forall i | 0 <= i < |front| ensures front[i] == Next(net, h + front[..i]) {
        assert toks[i] == Next(net, h + toks[..i]);
      }
    }
  }

  /** The position-by-position reading pins the whole continuation. */
  lemma {:induction false} GreedyIsUnique(net: Net, h: seq<Token>, toks: seq<Token>)
    requires h != []
    ensures IsGreedy(net, h, toks) <==> toks == Greedy(net, h, |toks|)
  {
    if toks != [] {
      var front, t := toks[..|toks| - 1], toks[|toks| - 1];
      assert toks == front + [t];
      GreedyIsUnique(net, h, front);
      GreedySnoc(net, h, front, t);
      var g := Greedy(net, h, |front|);
      assert Greedy(net, h, |toks|) == g + [Next(net, h + g)];
      assert (g + [Next(net, h + g)])[..|front|] == g;
    }
  }

  /** Continuing a greedy continuation greedily. */
  lemma GreedyAppend(net: Net, h: seq<Token>, a: seq<Token>, b: seq<Token>)
    requires h != []
    requires IsGreedy(net, h, a) && IsGreedy(net, h + a, b)
    ensures IsGreedy(net, h, a + b)
  {
    forall i | 0 <= i < |a + b| ensures (a + b)[i] == Next(net, h + (a + b)[..i]) {
      if i < |a| {
        assert (a + b)[..i] == a[..i];
      } else {
        assert h + (a + b)[..i] == h + a + b[..i - |a|];
      }
    }
  }

  /** A shorter history's cache entries are a prefix of a longer one's. */
  lemma {:induction false} FoldExtends(net: Net, h: seq<Token>, t: seq<Token>)
    ensures Fold(net, h + t).kvs[..|h|] == Fold(net, h).kvs
  {
    if t == [] {
      assert h + t == h;
    } else {
      var front := t[..|t| - 1];
      FoldExtends(net, h, front);
      assert (h + t)[..|h + t| - 1] == h + front;
      assert Fold(net, h + t).kvs[..|h + front|] == Fold(net, h + front).kvs;
    }
  }

  /** Feeding tokens to the target on top of a state and a cache prefix: the state after
      each token, and the entry and hidden output at each position. */
  datatype Fed = Fed(rows: seq<Gdn>, kvs: seq<Kv>, hiddens: seq<Hidden>)

  function Feed(net: Net, g: Gdn, kvs: seq<Kv>, toks: seq<Token>): (f: Fed)
    ensures |f.rows| == |f.kvs| == |f.hiddens| == |toks|
  {
    if toks == [] then Fed([], [], [])
    else
      var n := |toks| - 1;
      var f := Feed(net, g, kvs, toks[..n]);
      var out := net.cell(if n == 0 then g else f.rows[n - 1], kvs + f.kvs, toks[n]);
      Fed(f.rows + [out.gdn], f.kvs + [out.kv], f.hiddens + [out.hidden])
  }

  /** The hidden outputs along `toks` read after `h`. */
  ghost predicate HiddensAlong(net: Net, h: seq<Token>, toks: seq<Token>, hiddens: seq<Hidden>) {
    |hiddens| == |toks| &&
    forall j | 0 <= j < |toks| :: hiddens[j] == HiddenOf(net, h + toks[..j + 1])
  }

  /** Feeding on top of a history's context is reading the longer history: every
      intermediate state and output is the one of the corresponding prefix, whatever the
      later tokens are. */
  lemma {:induction false} FeedFollowsHistory(net: Net, h: seq<Token>, toks: seq<Token>)
    ensures var c := Fold(net, h); var f := Feed(net, c.gdn, c.kvs, toks);
            && c.kvs + f.kvs == Fold(net, h + toks).kvs
            && (forall j | 0 <= j < |toks| :: f.rows[j] == Fold(net, h + toks[..j + 1]).gdn)
            && HiddensAlong(net, h, toks, f.hiddens)
  {
    var c := Fold(net, h);
    if toks == [] {
      assert h + toks == h;
    } else {
      var n := |toks| - 1;
      var front := toks[..n];
      FeedFollowsHistory(net, h, front);
      var prev := Feed(net, c.gdn, c.kvs, front);
      var f := Feed(net, c.gdn, c.kvs, toks);
      assert (h + toks)[..|h + toks| - 1] == h + front;
      assert front[..n] == front && toks[..n + 1] == toks;
      assert n == 0 ==> h + front == h;
      forall j | 0 <= j < |toks|
        ensures f.rows[j] == Fold(net, h + toks[..j + 1]).gdn
        ensures f.hiddens[j] == HiddenOf(net, h + toks[..j + 1])
      {
        if j < n {
          assert toks[..j + 1] == front[..j + 1];
        }
      }
    }
  }

  /** An earlier output does not see the tokens after it. */
  lemma HiddensPrefix(net: Net, h: seq<Token>, toks: seq<Token>, hiddens: seq<Hidden>, n: nat)
    requires n <= |toks| && HiddensAlong(net, h, toks, hiddens)
    ensures HiddensAlong(net, h, toks[..n], hiddens[..n])
  {
    forall j | 0 <= j < n ensures hiddens[..n][j] == HiddenOf(net, h + toks[..n][..j + 1]) {
      assert toks[..n][..j + 1] == toks[..j + 1];
    }
  }
}
