/**
 The in-process nonce manager as its source writes it: an object with a one-token
 channel and three counter fields, and slots that resolve it at most once.
 */
module LocalManager {
  import opened Common
  import opened NonceContract
  import LP = LocalProtocol

  // ------------------------------------------------------------- specification

  /** The manager between calls: initialised, slot free, and the counter fields. */
  datatype State = State(ready: bool, free: bool, nonce: uint64, hasNonce: bool, dirty: bool)

  function Fresh(ready: bool): State {
    State(ready, true, 0, false, false)
  }

  /** Take the slot with nonce n recorded as the current one. */
  function Take(s: State, n: uint64): State {
    s.(free := false, nonce := n, hasNonce := true, dirty := false)
  }

  function AcquireSpec(s: State, w: World): (State, Result<uint64, AcquireError>) {
    if !s.ready then (s, Err(SourceRequired))
    else if !s.free || w.endsWait then (s, Err(WaitEnded))
    else if s.dirty && w.endsDelay then (s, Err(DelayCancelled))
    else if s.dirty || !s.hasNonce then
      match w.answer
      case None => (s, Err(FetchFailed))
      case Some(n) => (Take(s, n), Ok(n))
    else (Take(s, Inc(s.nonce)), Ok(Inc(s.nonce)))
  }

  function ResolveSpec(s: State, how: How): State {
    match how
    case Commit => s.(free := true)
    case Reuse => s.(free := true, nonce := if s.hasNonce then Dec(s.nonce) else s.nonce)
    case Reclaim => s.(free := true, dirty := true)
  }

  // ------------------------------------------------------------------- objects

  class NonceManager {
    var ready: bool        // source != nil
    var nonce: uint64
    var hasNonce: bool
    var dirty: bool
    var tokens: nat        // length of inflightCh, capacity 1
    ghost var owner: Slot? // the slot that has the token

    ghost predicate Valid()
      reads this
    {
      tokens == if owner == null then LP.CAPACITY else 0
    }

    ghost function Model(): State
      reads this
    {
      State(ready, tokens > 0, nonce, hasNonce, dirty)
    }

    constructor ()
      ensures Valid() && owner == null && Model() == Fresh(false)
    {
      ready, nonce, hasNonce, dirty := false, 0, false, false;
      tokens := 1;
      owner := null;
    }

    /** Init with a source, a chain id and an address; false if one of them is missing. */
    method Init(source: bool, chainID: bool, address: bool) returns (ok: bool)
      modifies this`ready
      ensures ok == (source && chainID && address)
      ensures ready == (old(ready) || ok)
    {
      if !source || !chainID || !address {
        return false;
      }
      ready := true;
      return true;
    }

    method Acquire(w: World) returns (r: Result<uint64, AcquireError>, slot: Slot?)
      requires Valid()
      modifies this
      ensures Valid()
      ensures (Model(), r) == AcquireSpec(old(Model()), w)
      ensures r.Ok? <==> slot != null
      ensures r.Ok? ==> fresh(slot) && slot.manager == this && slot.Valid() && !slot.resolved && slot.calls == []
      ensures owner == if r.Ok? then slot else old(owner)
      ensures r.Err? ==> Model() == old(Model())
      ensures r == Err(SourceRequired) <==> !old(ready)
      ensures r == Err(WaitEnded) <==> old(ready) && (old(tokens) == 0 || w.endsWait)
      ensures old(ready) && old(tokens) > 0 && !w.endsWait ==>
                && (r == Err(DelayCancelled) <==> old(dirty) && w.endsDelay)
                && (r == Err(FetchFailed) <==>
                      !(old(dirty) && w.endsDelay) && (old(dirty) || !old(hasNonce)) && w.answer == None)
      ensures r.Ok? ==> tokens == 0 && hasNonce && !dirty && nonce == r.value
      ensures r.Ok? && (old(dirty) || !old(hasNonce)) ==> w.answer == Some(r.value)
      ensures r.Ok? && !old(dirty) && old(hasNonce) ==> r.value == (old(nonce) + 1) % TWO_64
    {
      slot := null;
      if !ready {
        return Err(SourceRequired), null;
      }
      if tokens == 0 || w.endsWait {
        return Err(WaitEnded), null;
      }
      tokens := tokens - 1;
      r := NextNonce(w);
      if r.Err? {
        tokens := tokens + 1;
        return r, null;
      }
      slot := new Slot(this);
      owner := slot;
    }

    /** Runs while the caller holds the token. */
    method NextNonce(w: World) returns (r: Result<uint64, AcquireError>)
      requires ready && tokens == 0
      modifies this`nonce, this`hasNonce, this`dirty
      ensures var (s, answer) := AcquireSpec(old(Model()).(free := true), w.(endsWait := false));
              r == answer && Model() == s.(free := false)
    {
      var wasDirty, hadNonce := dirty, hasNonce;
      if wasDirty {
        if w.endsDelay {
          return Err(DelayCancelled);
        }
        if w.answer.None? {
          return Err(FetchFailed);
        }
        nonce := w.answer.value;
        hasNonce := true;
        dirty := false;
        return Ok(w.answer.value);
      }
      if !hadNonce {
        if w.answer.None? {
          return Err(FetchFailed);
        }
        nonce := w.answer.value;
        hasNonce := true;
        return Ok(w.answer.value);
      }
      nonce := Inc(nonce);
      return Ok(nonce);
    }
  }

  class Slot {
    const manager: NonceManager
    var resolved: bool
    ghost var calls: seq<How>   // every resolution called on this slot, oldest first

    /** An open slot is the one that has the manager's token. */
    ghost predicate Valid()
      reads this, manager
    {
      manager.Valid() && (resolved <==> manager.owner != this)
    }

    constructor (manager: NonceManager)
      ensures this.manager == manager && !resolved && calls == []
    {
      this.manager := manager;
      resolved := false;
      calls := [];
    }

    method Commit()
      requires Valid()
      modifies this, manager
      ensures Settled(Common.Commit)
      ensures manager.nonce == old(manager.nonce) && manager.dirty == old(manager.dirty)
    {
      calls := calls + [Common.Commit];
      if resolved {
        return;
      }
      resolved := true;
      manager.tokens := manager.tokens + 1;
      manager.owner := null;
    }

    method Reuse()
      requires Valid()
      modifies this, manager
      ensures Settled(Common.Reuse)
      ensures manager.dirty == old(manager.dirty)
      ensures manager.nonce == if old(resolved) || !old(manager.hasNonce) then old(manager.nonce)
                               else (old(manager.nonce) - 1) % TWO_64
    {
      calls := calls + [Common.Reuse];
      if resolved {
        return;
      }
      resolved := true;
      if manager.hasNonce {
        manager.nonce := Dec(manager.nonce);
      }
      manager.tokens := manager.tokens + 1;
      manager.owner := null;
    }

    method Reclaim()
      requires Valid()
      modifies this, manager
      ensures Settled(Common.Reclaim)
      ensures manager.nonce == old(manager.nonce)
      ensures manager.dirty == (old(manager.dirty) || !old(resolved))
    {
      calls := calls + [Common.Reclaim];
      if resolved {
        return;
      }
      resolved := true;
      manager.dirty := true;
      manager.tokens := manager.tokens + 1;
      manager.owner := null;
    }

    /** The first resolution applies its rule and frees the manager; any later one changes nothing. */
    twostate predicate Settled(how: How)
      reads this, manager
    {
      && Valid() && resolved && calls == old(calls) + [how]
      && manager.hasNonce == old(manager.hasNonce)
      && manager.tokens == old(manager.tokens) + (if old(resolved) then 0 else 1)
      && manager.Model() == (if old(resolved) then old(manager.Model()) else ResolveSpec(old(manager.Model()), how))
      && manager.owner == (if old(resolved) then old(manager.owner) else null)
    }
  }

  // ----------------------------------------- the step system behind one call

  /** The manager between calls, read off a state of the step system. */
  function Abs(s: LP.State): State {
    State(true, s.tokens > 0, s.nonce, s.hasNonce, s.dirty)
  }

  /** The actions of one undisturbed Acquire by goroutine t. */
  function AcquireRun(s: LP.State, t: nat, w: World): seq<LP.Action> {
    if s.tokens == 0 || w.endsWait then [LP.Call(t), LP.Cancel(t)]
    else [LP.Call(t), LP.Take(t), LP.ReadFlags(t)] + NextNonceRun(s, t, w)
  }

  function NextNonceRun(s: LP.State, t: nat, w: World): seq<LP.Action> {
    if s.dirty && w.endsDelay then [LP.Cancel(t), LP.GiveBack(t)]
    else if s.dirty || !s.hasNonce then
      match w.answer
      case None => [LP.FetchFail(t), LP.GiveBack(t)]
      case Some(n) => [LP.Fetch(t, n), LP.Record(t)]
    else [LP.Bump(t)]
  }

  lemma {:induction false} RunConcat(s: LP.State, a: seq<LP.Action>, b: seq<LP.Action>)
    requires LP.Legal(s, a) && LP.Legal(LP.Final(s, a), b)
    ensures LP.Legal(s, a + b) && LP.Final(s, a + b) == LP.Final(LP.Final(s, a), b)
    decreases |a|
  {
    if a == [] {
      assert a + b == b;
    } else {
      assert (a + b)[1..] == a[1..] + b;
      RunConcat(LP.Apply(s, a[0]), a[1..], b);
    }
  }

  lemma RunOfOne(s: LP.State, a: LP.Action)
    requires LP.Enabled(s, a)
    ensures LP.Legal(s, [a]) && LP.Final(s, [a]) == LP.Apply(s, a)
  {
    assert [a][1..] == [];
  }

  lemma RunOfTwo(s: LP.State, a: LP.Action, b: LP.Action)
    requires LP.Enabled(s, a) && LP.Enabled(LP.Apply(s, a), b)
    ensures LP.Legal(s, [a, b]) && LP.Final(s, [a, b]) == LP.Apply(LP.Apply(s, a), b)
  {
    RunOfOne(s, a);
    RunOfOne(LP.Apply(s, a), b);
    RunConcat(s, [a], [b]);
    assert [a] + [b] == [a, b];
  }

  lemma NextNonceIsARun(s: LP.State, s': LP.State, t: nat, w: World)
    requires s.tokens == 1 && !LP.At(s, t) && !w.endsWait
    requires s' == LP.Goto(s, t, if s.dirty then LP.StaleWait else if !s.hasNonce then LP.SeedWait else LP.Bumping)
                     .(tokens := 0)
    ensures LP.Legal(s', NextNonceRun(s, t, w))
    ensures Reflects(s, LP.Final(s', NextNonceRun(s, t, w)), AcquireSpec(Abs(s), w))
  {
    if s.dirty && w.endsDelay {
      RunOfTwo(s', LP.Cancel(t), LP.GiveBack(t));
    } else if s.dirty || !s.hasNonce {
      match w.answer
      case None => RunOfTwo(s', LP.FetchFail(t), LP.GiveBack(t));
      case Some(n) => RunOfTwo(s', LP.Fetch(t, n), LP.Record(t));
    } else {
      RunOfOne(s', LP.Bump(t));
    }
  }

  /** s' is s after a call that ended as out says: same goroutines, and one more slot if it succeeded. */
  predicate Reflects(s: LP.State, s': LP.State, out: (State, Result<uint64, AcquireError>)) {
    && Abs(s') == out.0
    && s'.threads == s.threads
    && s'.slots == (match out.1 case Ok(n) => s.slots + [LP.Slot(n, false)] case Err(_) => s.slots)
  }

  /** An undisturbed Acquire of the step system is the specified one. */
  lemma AcquireIsARun(s: LP.State, t: nat, w: World)
    requires s.tokens <= 1 && !LP.At(s, t)
    ensures LP.Legal(s, AcquireRun(s, t, w))
    ensures Reflects(s, LP.Final(s, AcquireRun(s, t, w)), AcquireSpec(Abs(s), w))
  {
    if s.tokens == 0 || w.endsWait {
      RunOfTwo(s, LP.Call(t), LP.Cancel(t));
    } else {
      var s1 := LP.Apply(LP.Apply(s, LP.Call(t)), LP.Take(t));
      var s2 := LP.Apply(s1, LP.ReadFlags(t));
      var head := [LP.Call(t), LP.Take(t)];
      RunOfTwo(s, LP.Call(t), LP.Take(t));
      RunOfOne(s1, LP.ReadFlags(t));
      RunConcat(s, head, [LP.ReadFlags(t)]);
      NextNonceIsARun(s, s2, t, w);
      assert head + [LP.ReadFlags(t)] == [LP.Call(t), LP.Take(t), LP.ReadFlags(t)];
      RunConcat(s, head + [LP.ReadFlags(t)], NextNonceRun(s, t, w));
    }
  }

  function ResolveRun(t: nat, i: nat, how: How): seq<LP.Action> {
    if how.Commit? then [LP.Resolve(t, i, how), LP.GiveBack(t)]
    else [LP.Resolve(t, i, how), LP.Settle(t)] + [LP.GiveBack(t)]
  }

  /** An undisturbed first resolution of the step system is the specified one. */
  lemma ResolveIsARun(s: LP.State, t: nat, i: nat, how: How)
    requires s.tokens == 0 && !LP.At(s, t) && i < |s.slots| && !s.slots[i].resolved
    ensures LP.Legal(s, ResolveRun(t, i, how))
    ensures var s' := LP.Final(s, ResolveRun(t, i, how));
            && Abs(s') == ResolveSpec(Abs(s), how)
            && s'.threads == s.threads
            && s'.slots == s.slots[i := s.slots[i].(resolved := true)]
  {
    if how.Commit? {
      RunOfTwo(s, LP.Resolve(t, i, how), LP.GiveBack(t));
    } else {
      RunOfTwo(s, LP.Resolve(t, i, how), LP.Settle(t));
      var s2 := LP.Final(s, [LP.Resolve(t, i, how), LP.Settle(t)]);
      RunOfOne(s2, LP.GiveBack(t));
      RunConcat(s, [LP.Resolve(t, i, how), LP.Settle(t)], [LP.GiveBack(t)]);
    }
  }
}
