/**
  Rolling back a detour: the recurrent row must be put back, the position-addressed cache
  only needs its length rewound.
 */
module Rollbacks {
  import opened Drafting
  import opened Network
  import opened Runners
  import opened Slots

  /** Nothing an in-place forward can read tells the two slots apart.  Their caches may
      differ past the length. */
  ghost predicate Alike(a: Slot, b: Slot) {
    && a.kvLen == b.kvLen && a.kvLen <= |a.cache| && b.kvLen <= |b.cache|
    && a.cache[..a.kvLen] == b.cache[..b.kvLen]
    && a.ready && b.ready && a.rows != [] && b.rows != [] && a.rows[0] == b.rows[0]
  }

  ghost predicate Solid(pieces: seq<seq<Token>>) {
    forall i | 0 <= i < |pieces| :: pieces[i] != []
  }

  /** A run of committing forwards, one per piece. */
  ghost function RunAll(net: Net, s: Slot, pieces: seq<seq<Token>>): (t: Slot)
    requires s.rows != [] && s.kvLen <= |s.cache| && Solid(pieces)
    ensures t.rows != [] && s.kvLen <= t.kvLen <= |t.cache|
  {
    if pieces == [] then s
    else
      var t := RunAll(net, s, pieces[..|pieces| - 1]);
      InPlaceForward(net, t, pieces[|pieces| - 1], false, true)
  }

  /** Everything the forwards put out. */
  ghost function Outputs(net: Net, s: Slot, pieces: seq<seq<Token>>): seq<seq<Hidden>>
    requires s.rows != [] && s.kvLen <= |s.cache| && Solid(pieces)
  {
    if pieces == [] then []
    else
      var front := pieces[..|pieces| - 1];
      Outputs(net, s, front) + [FedInPlace(net, RunAll(net, s, front), pieces[|pieces| - 1], false).hiddens]
  }

  lemma AlikeForward(net: Net, a: Slot, b: Slot, toks: seq<Token>, decode: bool)
    requires Alike(a, b) && toks != []
    ensures FedInPlace(net, a, toks, decode) == FedInPlace(net, b, toks, decode)
    ensures Alike(InPlaceForward(net, a, toks, decode, true), InPlaceForward(net, b, toks, decode, true))
  {
    hide Feed, Overlay;
    var kvs := FedInPlace(net, a, toks, decode).kvs;
    OverlayPrefix(a.cache, a.kvLen, kvs, a.kvLen);
    OverlayPrefix(b.cache, b.kvLen, kvs, b.kvLen);
  }

  /** Alike slots put out the same for every continuation, forever. */
  lemma {:induction false} AlikeForever(net: Net, a: Slot, b: Slot, pieces: seq<seq<Token>>)
    requires Alike(a, b) && Solid(pieces)
    ensures Outputs(net, a, pieces) == Outputs(net, b, pieces)
    ensures Alike(RunAll(net, a, pieces), RunAll(net, b, pieces))
  {
    hide InPlaceForward, FedInPlace;
    if pieces != [] {
      var front := pieces[..|pieces| - 1];
      AlikeForever(net, a, b, front);
      AlikeForward(net, RunAll(net, a, front), RunAll(net, b, front), pieces[|pieces| - 1], false);
    }
  }

  /** Committing forwards never touch the entries below the old length, nor the saved row. */
  lemma ForwardKeeps(net: Net, s: Slot, toks: seq<Token>, decode: bool)
    requires s.rows != [] && s.kvLen <= |s.cache| && toks != []
    ensures var t := InPlaceForward(net, s, toks, decode, true);
            && s.kvLen <= t.kvLen <= |t.cache| && t.cache[..s.kvLen] == s.cache[..s.kvLen] && |s.cache| <= |t.cache|
            && t.saved == s.saved && t.rows != [] && t.ready
            && t.generation == s.generation && t.consumed == s.consumed
  {
    hide Feed, Overlay;
    OverlayPrefix(s.cache, s.kvLen, FedInPlace(net, s, toks, decode).kvs, s.kvLen);
  }

  /** `t` is `s` after some detour. */
  ghost predicate Detoured(s: Slot, t: Slot) {
    && s.kvLen <= t.kvLen <= |t.cache| && s.kvLen <= |s.cache| && t.cache[..s.kvLen] == s.cache[..s.kvLen]
    && t.saved == s.saved && t.rows != [] && (s.ready ==> t.ready)
    && t.generation == s.generation && t.consumed == s.consumed
  }

  lemma DetourForward(net: Net, s: Slot, t: Slot, toks: seq<Token>, decode: bool)
    requires Detoured(s, t) && toks != []
    ensures Detoured(s, InPlaceForward(net, t, toks, decode, true))
  {
    hide InPlaceForward;
    ForwardKeeps(net, t, toks, decode);
    var u := InPlaceForward(net, t, toks, decode, true);
    assert u.cache[..s.kvLen] == u.cache[..t.kvLen][..s.kvLen];
    assert t.cache[..s.kvLen] == t.cache[..t.kvLen][..s.kvLen];
  }

  lemma {:induction false} AnyDetour(net: Net, s: Slot, pieces: seq<seq<Token>>)
    requires s.rows != [] && s.kvLen <= |s.cache| && Solid(pieces)
    ensures Detoured(s, RunAll(net, s, pieces))
  {
    hide InPlaceForward;
    if pieces != [] {
      AnyDetour(net, s, pieces[..|pieces| - 1]);
      DetourForward(net, s, RunAll(net, s, pieces[..|pieces| - 1]), pieces[|pieces| - 1], false);
    }
  }

  /** Putting the saved row back and rewinding the length undoes a detour... */
  lemma UndoDetour(s: Slot, t: Slot)
    requires Detoured(s, t) && s.ready && s.rows != [] && s.saved == s.rows[0]
    ensures Alike(t.(rows := t.rows[0 := t.saved], kvLen := s.kvLen), s)
  {
  }

  /** ...of any length, observably for ever after. */
  lemma RollbackIsPerfect(net: Net, s: Slot, detour: seq<seq<Token>>, later: seq<seq<Token>>)
    requires s.ready && s.rows != [] && s.kvLen <= |s.cache| && s.saved == s.rows[0]
    requires Solid(detour) && Solid(later)
    ensures var t := RunAll(net, s, detour);
            Outputs(net, t.(rows := t.rows[0 := t.saved], kvLen := s.kvLen), later) == Outputs(net, s, later)
  {
    AnyDetour(net, s, detour);
    var t := RunAll(net, s, detour);
    UndoDetour(s, t);
    AlikeForever(net, t.(rows := t.rows[0 := t.saved], kvLen := s.kvLen), s, later);
  }

  /** Without the restore it is not: rewinding the length alone leaves the counting model
      counting the detour. */
  lemma RewindAloneIsNotEnough()
    ensures var s := Slot([], 0, [0], 1, true, [], 0, 0, 0, {});
            var t := RunAll(Counting(), s, [[7]]);
            Outputs(Counting(), t.(kvLen := 0), [[8]]) != Outputs(Counting(), s, [[8]])
  {
    var s := Slot([], 0, [0], 1, true, [], 0, 0, 0, {});
    assert [[7]][..0] == [] && [7][..0] == [] && [[8]][..0] == [] && [8][..0] == [];
    var t := RunAll(Counting(), s, [[7]]);
    assert RunAll(Counting(), s, []) == s;
    assert t == InPlaceForward(Counting(), s, [7], false, true);
    assert t.rows == [1];
    var u := t.(kvLen := 0);
    assert Outputs(Counting(), u, [[8]]) == [FedInPlace(Counting(), u, [8], false).hiddens];
    assert Outputs(Counting(), s, [[8]]) == [FedInPlace(Counting(), s, [8], false).hiddens];
    assert FedInPlace(Counting(), u, [8], false).hiddens == [2];
    assert FedInPlace(Counting(), s, [8], false).hiddens == [1];
    assert [[2]][0][0] != [[1]][0][0];
  }

  /** One greedy decoding step of a slot holding `h`. */
  method DecodeOne(r: Runner, slot: nat, tok: Token, ghost h: seq<Token>) returns (hids: seq<Hidden>, next: Token)
    requires r.Valid() && slot < |r.slots| && InPlace(r.single, r.slots[slot], h)
    modifies r
    ensures r.Valid()
    ensures r.slots == old(r.slots)[slot := InPlaceForward(r.single, old(r.slots)[slot], [tok], true, true)]
    ensures hids == FedInPlace(r.single, old(r.slots)[slot], [tok], true).hiddens
    ensures InPlace(r.single, r.slots[slot], h + [tok]) && next == Next(r.single, h + [tok])
    ensures var s, t := old(r.slots)[slot], r.slots[slot];
            && t.generation == s.generation && t.consumed == s.consumed && t.saved == s.saved
            && |s.cache| <= |t.cache| && t.kvLen == |h| + 1 <= |t.cache|
  {
    ForwardKeeps(r.single, r.slots[slot], [tok], true);
    hide InPlaceForward, FedInPlace, InPlace, HiddenOf, Argmax;
    InPlaceFollowsHistory(r.single, r.slots[slot], h, [tok], true);
    hids := r.Forward(slot, [tok], true);
    next := Argmax(r.single.head(hids[|hids| - 1]));
    assert [tok][..0 + 1] == [tok];
  }

  /** `steps` decoded tokens on one slot, each fed back as it comes. */
  method TakeDetour(r: Runner, slot: nat, first: Token, steps: nat, ghost h: seq<Token>) returns (path: seq<Token>)
    requires r.Valid() && slot < |r.slots| && h != [] && InPlace(r.single, r.slots[slot], h)
    requires first == Next(r.single, h)
    modifies r
    ensures r.Valid() && Untouched(old(r.slots), r.slots, [slot]) && Detoured(old(r.slots)[slot], r.slots[slot])
    ensures |path| == steps + 1 && path[0] == first && IsGreedy(r.single, h, path)
    ensures InPlace(r.single, r.slots[slot], h + path[..steps])
  {
    hide InPlaceForward, FedInPlace, Next;
    path := [first];
    assert h + path[..0] == h;
    assert IsGreedy(r.single, h, path);
    hide IsGreedy;
    for i := 0 to steps
      invariant r.Valid() && Untouched(old(r.slots), r.slots, [slot]) && Detoured(old(r.slots)[slot], r.slots[slot])
      invariant |path| == i + 1 && path[0] == first && IsGreedy(r.single, h, path)
      invariant InPlace(r.single, r.slots[slot], h + path[..i])
    {
      DetourForward(r.single, old(r.slots)[slot], r.slots[slot], [path[i]], true);
      assert h + path[..i] + [path[i]] == h + path;
      var hids, next := DecodeOne(r, slot, path[i], h + path[..i]);
      GreedySnoc(r.single, h, path, next);
      assert (path + [next])[..i + 1] == path;
      path := path + [next];
    }
  }

  /** Snapshot, take a detour, restore the snapshot and rewind the length. */
  method DetourAndBack(r: Runner, slot: nat, first: Token, steps: nat, ghost h: seq<Token>) returns (path: seq<Token>)
    requires r.Valid() && slot < |r.slots| && h != [] && InPlace(r.single, r.slots[slot], h)
    requires first == Next(r.single, h)
    modifies r
    ensures r.Valid() && Untouched(old(r.slots), r.slots, [slot]) && InPlace(r.single, r.slots[slot], h)
    ensures |path| == steps + 1 && path[0] == first && IsGreedy(r.single, h, path)
    ensures var s, t := old(r.slots)[slot], r.slots[slot];
            && t.generation == s.generation + 1 && t.generation in t.consumed
            && t.saved == Fold(r.single, h).gdn && |h| + steps <= |t.cache|
  {
    hide InPlaceForward, FedInPlace, IsGreedy, Next, Fold;
    var snapshot := r.SnapshotState(slot);
    var kvSaved := r.slots[slot].kvLen;
    ghost var start := r.slots[slot];
    assert InPlace(r.single, start, h);
    path := TakeDetour(r, slot, first, steps, h);
    UndoDetour(start, r.slots[slot]);
    var restored := r.RestoreState(slot, snapshot, false);
    assert restored.Ok?;
    r.slots := r.slots[slot := r.slots[slot].(kvLen := kvSaved)];
    AlikeHolds(r.single, r.slots[slot], start, h);
  }

  /** The twin check: two slots prefilled alike and stepped once, one takes a detour of `steps`
      decoded tokens and is rolled back, then both decode the same token.  It always passes, and
      leaves both slots holding the prompt and the two tokens decoded after it, whatever the
      detour wrote. */
  method TwinCheck(r: Runner, detour: nat, reference: nat, prompt: seq<Token>, steps: nat)
    returns (passed: bool, path: seq<Token>)
    requires r.Valid() && detour < |r.slots| && reference < |r.slots| && detour != reference
    requires prompt != [] && Fresh(r.slots[detour]) && Fresh(r.slots[reference])
    modifies r
    ensures r.Valid() && Untouched(old(r.slots), r.slots, [detour, reference]) && passed
    ensures Alike(r.slots[detour], r.slots[reference])
    ensures |path| == steps + 1 && IsGreedy(r.single, prompt + [Next(r.single, prompt)], path)
    ensures InPlace(r.single, r.slots[detour], prompt + [Next(r.single, prompt), path[0]])
    ensures InPlace(r.single, r.slots[reference], prompt + [Next(r.single, prompt), path[0]])
    ensures |prompt| + 1 + steps <= |r.slots[detour].cache|
    ensures r.slots[detour].generation == old(r.slots)[detour].generation + 1
    ensures r.slots[detour].generation in r.slots[detour].consumed
    ensures r.slots[detour].saved == Fold(r.single, prompt + [Next(r.single, prompt)]).gdn
  {
    hide InPlaceForward, FedInPlace, Fresh, Next, IsGreedy;
    path := [];
    var tokA := r.Prefill(detour, prompt);
    var tokRef := r.Prefill(reference, prompt);
    if tokA != tokRef {
      return false, path;
    }
    ghost var h := prompt + [tokA];
    AlikePrefills(r.single, r.slots[detour], r.slots[reference], prompt);
    AlikeForward(r.single, r.slots[detour], r.slots[reference], [tokA], true);
    var a, tokB := DecodeOne(r, detour, tokA, prompt);
    var aRef, tokBRef := DecodeOne(r, reference, tokRef, prompt);
    if a != aRef {
      return false, path;
    }
    path := DetourAndBack(r, detour, tokB, steps, h);
    AlikePrefills(r.single, r.slots[detour], r.slots[reference], h);
    AlikeForward(r.single, r.slots[detour], r.slots[reference], [tokB], true);
    assert h + [tokB] == prompt + [tokA, tokB];
    var b, next := DecodeOne(r, detour, tokB, h);
    var bRef, nextRef := DecodeOne(r, reference, tokB, h);
    passed := b == bRef && r.slots[detour].rows[0] == r.slots[reference].rows[0];
  }

  lemma AlikeHolds(net: Net, a: Slot, b: Slot, h: seq<Token>)
    requires Alike(a, b) && InPlace(net, b, h)
    ensures InPlace(net, a, h)
  {
  }

  lemma AlikePrefills(net: Net, a: Slot, b: Slot, h: seq<Token>)
    requires InPlace(net, a, h) && InPlace(net, b, h)
    ensures Alike(a, b)
  {
  }
}
