/**
  Flat batch layouts.  A batched forward takes and returns one flat run of rows in
  request-then-position order; callers slice it back per request, by a fixed stride when
  every request has the same width and by running offsets when widths differ.
 */
module Batches {
  /** Rows of all requests, one after the other. */
  function Flat<T>(parts: seq<seq<T>>): seq<T> {
    if parts == [] then [] else Flat(parts[..|parts| - 1]) + parts[|parts| - 1]
  }

  /** The slice a caller takes for request i at a fixed stride; slicing clamps. */
  function Block<T>(flat: seq<T>, i: nat, w: nat): seq<T> {
    if i * w + w <= |flat| then flat[i * w..i * w + w] else []
  }

  /** Where request i starts when widths differ. */
  function Offset<T>(parts: seq<seq<T>>, i: nat): (n: nat)
    requires i <= |parts|
  {
    |Flat(parts[..i])|
  }

  lemma FlatNil<T>()
    ensures Flat<T>([]) == []
  {
  }

  lemma FlatSnoc<T>(parts: seq<seq<T>>, last: seq<T>)
    ensures Flat(parts + [last]) == Flat(parts) + last
  {
    assert (parts + [last])[..|parts|] == parts;
  }

  lemma BlockFits<T>(flat: seq<T>, i: nat, n: nat, w: nat)
    requires i < n && |flat| == n * w
    ensures |Block(flat, i, w)| == w
  {
    var d := n - i - 1;
    assert n * w == i * w + w + d * w;
    assert d * w >= 0;
  }

  lemma {:induction false} FlatAppend<T>(a: seq<seq<T>>, b: seq<seq<T>>)
    ensures Flat(a + b) == Flat(a) + Flat(b)
  {
    if b == [] {
      assert a + b == a;
    } else {
      hide Flat;
      var front, last := b[..|b| - 1], b[|b| - 1];
      assert b == front + [last] && a + b == a + front + [last];
      FlatAppend(a, front);
      FlatSnoc(a + front, last);
      FlatSnoc(front, last);
    }
  }

  /** Ragged slicing gives every request its own rows back. */
  lemma RaggedSlice<T>(parts: seq<seq<T>>, i: nat)
    requires i < |parts|
    ensures Offset(parts, i + 1) == Offset(parts, i) + |parts[i]| <= |Flat(parts)|
    ensures Flat(parts)[Offset(parts, i)..Offset(parts, i + 1)] == parts[i]
  {
    var head := parts[..i + 1];
    assert head[..i] == parts[..i] && head[i] == parts[i];
    assert parts == head + parts[i + 1..];
    FlatAppend(head, parts[i + 1..]);
  }

  lemma {:induction false} UniformLength<T>(parts: seq<seq<T>>, w: nat)
    requires forall i | 0 <= i < |parts| :: |parts[i]| == w
    ensures |Flat(parts)| == |parts| * w
  {
    if parts != [] {
      var n := |parts| - 1;
      UniformLength(parts[..n], w);
      OneMore(n, w);
    }
  }

  lemma OneMore(n: nat, w: nat)
    ensures (n + 1) * w == n * w + w
  {
  }

  /** Fixed-stride slicing gives every request its own rows back when widths agree. */
  lemma UniformSlice<T>(parts: seq<seq<T>>, i: nat, w: nat)
    requires i < |parts| && forall j | 0 <= j < |parts| :: |parts[j]| == w
    ensures Block(Flat(parts), i, w) == parts[i]
  {
    UniformLength(parts, w);
    UniformLength(parts[..i], w);
    BlockFits(Flat(parts), i, |parts|, w);
    RaggedSlice(parts, i);
  }

  /** Each element as a request of its own. */
  function Singles<T>(xs: seq<T>): (parts: seq<seq<T>>)
    ensures |parts| == |xs|
    ensures forall i | 0 <= i < |xs| :: parts[i] == [xs[i]]
  {
    if xs == [] then [] else Singles(xs[..|xs| - 1]) + [[xs[|xs| - 1]]]
  }

  lemma {:induction false} SinglesFlat<T>(xs: seq<T>)
    ensures Flat(Singles(xs)) == xs
  {
    if xs != [] {
      SinglesFlat(xs[..|xs| - 1]);
      FlatSnoc(Singles(xs[..|xs| - 1]), [xs[|xs| - 1]]);
    }
  }

  lemma FlatOfSingles<T>(parts: seq<seq<T>>)
    requires forall i | 0 <= i < |parts| :: |parts[i]| == 1
    ensures |Flat(parts)| == |parts|
    ensures forall i | 0 <= i < |parts| :: Flat(parts)[i] == parts[i][0]
  {
    UniformLength(parts, 1);
    forall i | 0 <= i < |parts| ensures Flat(parts)[i] == parts[i][0] {
      UniformSlice(parts, i, 1);
      assert Block(Flat(parts), i, 1)[0] == Flat(parts)[i];
    }
  }

  /** The first lens[i] rows of every request of a uniform batch, as a flat batch again. */
  method CutRows<T>(rows: seq<T>, ghost parts: seq<seq<T>>, w: nat, lens: seq<nat>)
    returns (flat: seq<T>, ghost cut: seq<seq<T>>)
    requires rows == Flat(parts) && |parts| == |lens|
    requires forall i | 0 <= i < |lens| :: lens[i] <= w == |parts[i]|
    ensures flat == Flat(cut) && |cut| == |lens|
    ensures forall i | 0 <= i < |lens| :: cut[i] == parts[i][..lens[i]]
  {
    hide Flat, Block;
    FlatNil<T>();
    flat, cut := [], [];
    var from := 0;
    assert parts[..0] == [];
    for i := 0 to |lens|
      invariant from == Offset(parts, i) && |cut| == i && flat == Flat(cut)
      invariant forall j | 0 <= j < i :: cut[j] == parts[j][..lens[j]]
    {
      RaggedSlice(parts, i);
      var part := rows[from..from + w][..lens[i]];
      FlatSnoc(cut, part);
      flat, cut := flat + part, cut + [part];
      from := from + w;
    }
  }
}
