/**
 The Redis-backed nonce manager as its source writes it: an object with an instance
 id and a dirty flag, driving a lock key and a counter key in a store that other
 processes share.
 */
module RedisManager {
  import opened Common
  import opened NonceContract
  import RP = RedisProtocol

  /** Acquire's errors: the shared ones, or a Redis command that failed or a counter that does not parse. */
  datatype Error = Plain(e: AcquireError) | LockFailed | CounterFailed | CounterUnparsable

  /** What a later SETNX attempt finds in the lock key, and how it ends. */
  datatype Attempt = Attempt(lock: Option<nat>, reply: RP.Reply)

  /**
   The outside world of one Acquire: the shared part, how the first SETNX ends, what
   other processes have left for the attempts after it until the context ends, and
   how the other commands end.
   */
  datatype RedisWorld = RedisWorld(
    w: World,
    first: RP.Reply,
    more: seq<Attempt>,
    existsOk: bool,
    getOk: bool,
    store: RP.Reply,
    release: RP.Reply)

  // ------------------------------------------------------------- specification

  /** One manager's view: its own fields and the two keys. */
  datatype State = State(ready: bool, inst: nat, lock: Option<nat>, counter: Option<int>, dirty: bool)

  /** A SETNX that is answered or fails; None means: busy, keep polling. */
  function SetNXSpec(inst: nat, lock: Option<nat>, reply: RP.Reply): (Option<nat>, Option<Result<(), Error>>) {
    match reply
    case Done => if lock.None? then (Some(inst), Some(Ok(()))) else (lock, None)
    case Unseen => (if lock.None? then Some(inst) else lock, Some(Err(LockFailed)))
    case NotDone => (lock, Some(Err(LockFailed)))
  }

  /** SETNX attempts in turn; the wait ends after the last one. */
  function LockSpec(inst: nat, attempts: seq<Attempt>): (Option<nat>, Result<(), Error>)
    requires |attempts| > 0
  {
    var (lock', answer) := SetNXSpec(inst, attempts[0].lock, attempts[0].reply);
    if answer.Some? then (lock', answer.value)
    else if |attempts| == 1 then (lock', Err(Plain(WaitEnded)))
    else LockSpec(inst, attempts[1..])
  }

  function Attempts(lock: Option<nat>, w: RedisWorld): seq<Attempt> {
    [Attempt(lock, w.first)] + w.more
  }

  function SetSpec(s: State, n: uint64, reply: RP.Reply): (State, Result<uint64, Error>) {
    match reply
    case Done => (s.(counter := Some(Inc(n))), Ok(n))
    case Unseen => (s.(counter := Some(Inc(n))), Err(CounterFailed))
    case NotDone => (s, Err(CounterFailed))
  }

  function NextNonceSpec(s: State, w: RedisWorld): (State, Result<uint64, Error>) {
    if s.dirty then
      if w.w.endsDelay then (s, Err(Plain(DelayCancelled)))
      else
        match w.w.answer
        case None => (s, Err(Plain(FetchFailed)))
        case Some(n) =>
          var (s', r) := SetSpec(s, n, w.store);
          (if r.Ok? then s'.(dirty := false) else s', r)
    else if !w.existsOk then (s, Err(CounterFailed))
    else if s.counter.None? then
      match w.w.answer
      case None => (s, Err(Plain(FetchFailed)))
      case Some(n) => SetSpec(s, n, w.store)
    else if !w.getOk then (s, Err(CounterFailed))
    else if !RP.Parses(s.counter.value) then (s, Err(CounterUnparsable))
    else SetSpec(s, s.counter.value, w.store)
  }

  function ReleaseSpec(s: State, reply: RP.Reply): State {
    if reply.NotDone? then s else s.(lock := RP.ReleaseScript(s.lock, s.inst).0)
  }

  function AcquireSpec(s: State, w: RedisWorld): (State, Result<uint64, Error>) {
    if !s.ready then (s, Err(Plain(SourceRequired)))
    else if w.w.endsWait then (s, Err(Plain(WaitEnded)))
    else
      var (lock, taken) := LockSpec(s.inst, Attempts(s.lock, w));
      if taken.Err? then (s.(lock := lock), Err(taken.error))
      else
        var (s', r) := NextNonceSpec(s.(lock := lock), w);
        (if r.Ok? then s' else ReleaseSpec(s', w.release), r)
  }

  /** DECR is ignored if it fails, and so is the release. */
  function ResolveSpec(s: State, how: How, decr: RP.Reply, release: RP.Reply): State {
    var settled := match how
      case Commit => s
      case Reuse =>
        if decr.NotDone? || !RP.DecrWorks(s.counter) then s else s.(counter := RP.DecrValue(s.counter))
      case Reclaim => s.(dirty := true);
    ReleaseSpec(settled, release)
  }

  /** Attempt k finds the key free and is answered, after nothing but "busy". */
  predicate Wins(attempts: seq<Attempt>, k: nat) {
    && k < |attempts| && attempts[k].lock.None? && attempts[k].reply.Done?
    && forall j :: 0 <= j < k ==> attempts[j].lock.Some? && attempts[j].reply.Done?
  }

  /** If the lock is obtained then some attempt won, and the lock holds this instance's id. */
  lemma {:induction false} ObtainedByAWinner(inst: nat, attempts: seq<Attempt>) returns (k: nat)
    requires |attempts| > 0 && LockSpec(inst, attempts).1.Ok?
    ensures Wins(attempts, k) && LockSpec(inst, attempts).0 == Some(inst)
  {
    k := 0;
    if attempts[0].lock.Some? {
      var later := ObtainedByAWinner(inst, attempts[1..]);
      k := later + 1;
    }
  }

  /** Before attempt k every attempt finds the key taken and is answered. */
  predicate BusyBefore(attempts: seq<Attempt>, k: nat) {
    k <= |attempts| && forall j :: 0 <= j < k ==> attempts[j].lock.Some? && attempts[j].reply.Done?
  }

  /**
   Without a winner, the wait ended after nothing but "busy", or it was broken off at the
   first attempt whose command failed; that one may have taken a free lock all the same.
   */
  lemma {:induction false} NotObtained(inst: nat, attempts: seq<Attempt>) returns (k: nat)
    requires |attempts| > 0 && LockSpec(inst, attempts).1.Err?
    ensures BusyBefore(attempts, k)
    ensures k == |attempts| ==>
              LockSpec(inst, attempts) == (attempts[k - 1].lock, Err(Plain(WaitEnded)))
    ensures k < |attempts| ==>
              && !attempts[k].reply.Done?
              && LockSpec(inst, attempts).1 == Err(LockFailed)
              && LockSpec(inst, attempts).0
                 == (if attempts[k].reply.Unseen? && attempts[k].lock == None then Some(inst) else attempts[k].lock)
  {
    k := 0;
    if attempts[0].lock.Some? && attempts[0].reply.Done? {
      k := 1;
      if |attempts| > 1 {
        var later := NotObtained(inst, attempts[1..]);
        k := later + 1;
      }
    }
  }

  /** If some attempt wins then the lock is obtained. */
  lemma {:induction false} WinnerObtains(inst: nat, attempts: seq<Attempt>, k: nat)
    requires Wins(attempts, k)
    ensures LockSpec(inst, attempts) == (Some(inst), Ok(()))
    decreases k
  {
    if k > 0 {
      WinnerObtains(inst, attempts[1..], k - 1);
    }
  }

  // ------------------------------------------------------------------- objects

  /** The two keys in Redis. */
  class Store {
    var lock: Option<nat>
    var counter: Option<int>

    constructor ()
      ensures lock == None && counter == None
    {
      lock, counter := None, None;
    }

    /** GET, compare, DEL in one atomic script: 1 if the lock was id's, else 0. */
    method ReleaseLockScript(id: nat) returns (n: int)
      modifies this`lock
      ensures (lock, n) == RP.ReleaseScript(old(lock), id)
      ensures old(lock) == Some(id) ==> lock == None && n == 1
      ensures old(lock) != Some(id) ==> lock == old(lock) && n == 0
    {
      if lock == Some(id) {
        lock := None;
        return 1;
      }
      return 0;
    }

    method Decr() returns (ok: bool)
      modifies this`counter
      ensures ok == RP.DecrWorks(old(counter))
      ensures counter == if ok then RP.DecrValue(old(counter)) else old(counter)
    {
      var value := if counter.None? then 0 else counter.value;
      if value < -MAX_INT64 || value > MAX_INT64 {
        return false;
      }
      counter := Some(value - 1);
      return true;
    }
  }

  class NonceManager {
    const store: Store
    const inst: nat
    var ready: bool
    var dirty: bool

    ghost function Model(): State
      reads this, store
    {
      State(ready, inst, store.lock, store.counter, dirty)
    }

    constructor (store: Store, inst: nat)
      ensures this.store == store && this.inst == inst && !ready && !dirty
    {
      this.store := store;
      this.inst := inst;
      ready, dirty := false, false;
    }

    method Init(source: bool, chainID: bool, address: bool) returns (ok: bool)
      modifies this`ready
      ensures ok == (source && chainID && address)
      ensures ready == (old(ready) || ok)
    {
      if !source || !chainID || !address {
        return false;
      }
      ready := true;
      return true;
    }

    method Acquire(w: RedisWorld) returns (r: Result<uint64, Error>, slot: Slot?)
      modifies this, store
      ensures (Model(), r) == AcquireSpec(old(Model()), w)
      ensures r.Ok? <==> slot != null
      ensures r.Ok? ==> fresh(slot) && slot.manager == this && !slot.resolved
      ensures !old(ready) ==> r == Err(Plain(SourceRequired)) && Model() == old(Model())
      ensures old(ready) && w.w.endsWait ==> r == Err(Plain(WaitEnded)) && Model() == old(Model())
    {
      slot := null;
      if !ready {
        return Err(Plain(SourceRequired)), null;
      }
      var taken := AcquireLock(w);
      if taken.Err? {
        return Err(taken.error), null;
      }
      r := NextNonce(w);
      if r.Err? {
        var _ := ReleaseLock(w.release);
        return r, null;
      }
      slot := new Slot(this);
    }

    /** Poll with SETNX until the lock is free, a command fails or the context ends. */
    method AcquireLock(w: RedisWorld) returns (r: Result<(), Error>)
      modifies store`lock
      ensures w.w.endsWait ==> store.lock == old(store.lock) && r == Err(Plain(WaitEnded))
      ensures !w.w.endsWait ==> (store.lock, r) == LockSpec(inst, Attempts(old(store.lock), w))
    {
      if w.w.endsWait {
        return Err(Plain(WaitEnded));
      }
      var reply, attempt := w.first, 0;
      while true
        invariant attempt <= |w.more|
        invariant LockSpec(inst, [Attempt(store.lock, reply)] + w.more[attempt..])
               == LockSpec(inst, Attempts(old(store.lock), w))
        decreases |w.more| - attempt
      {
        var free := store.lock.None?;
        if free && !reply.NotDone? {
          store.lock := Some(inst);
        }
        if !reply.Done? {
          return Err(LockFailed);
        }
        if free {
          return Ok(());
        }
        if attempt == |w.more| {
          return Err(Plain(WaitEnded));
        }
        assert ([Attempt(store.lock, reply)] + w.more[attempt..])[1..]
            == [w.more[attempt]] + w.more[attempt + 1..];
        store.lock, reply := w.more[attempt].lock, w.more[attempt].reply;
        attempt := attempt + 1;
      }
    }

    /** Whether the script ran and found the lock to be this instance's. */
    method ReleaseLock(reply: RP.Reply) returns (ok: bool)
      modifies store`lock
      ensures Model() == ReleaseSpec(old(Model()), reply)
      ensures ok == (reply.Done? && old(store.lock) == Some(inst))
      ensures store.lock == if !reply.NotDone? && old(store.lock) == Some(inst) then None else old(store.lock)
    {
      if reply.NotDone? {
        return false;
      }
      var n := store.ReleaseLockScript(inst);
      return reply.Done? && n != 0;
    }

    /** SET the counter to n + 1. */
    method StoreNext(n: uint64, reply: RP.Reply) returns (ok: bool)
      modifies store`counter
      ensures ok == reply.Done?
      ensures Model() == SetSpec(old(Model()), n, reply).0
    {
      if !reply.NotDone? {
        store.counter := Some(Inc(n));
      }
      return reply.Done?;
    }

    /** Runs while this instance holds the lock. */
    method NextNonce(w: RedisWorld) returns (r: Result<uint64, Error>)
      modifies this`dirty, store`counter
      ensures (Model(), r) == NextNonceSpec(old(Model()), w)
      ensures r.Ok? ==> !dirty && store.counter == Some((r.value + 1) % TWO_64)
      ensures r.Ok? && (old(dirty) || old(store.counter) == None) ==> w.w.answer == Some(r.value)
      ensures r.Ok? && !old(dirty) && old(store.counter) != None ==> old(store.counter) == Some(r.value)
      ensures r.Err? ==> dirty == old(dirty)
      ensures r.Err? && r != Err(CounterFailed) ==> store.counter == old(store.counter)
      ensures r == Err(Plain(DelayCancelled)) <==> old(dirty) && w.w.endsDelay
      ensures r == Err(Plain(FetchFailed)) <==>
                && w.w.answer == None
                && (if old(dirty) then !w.w.endsDelay else w.existsOk && old(store.counter) == None)
      ensures r == Err(CounterUnparsable) <==>
                && !old(dirty) && w.existsOk && w.getOk
                && old(store.counter).Some? && !(0 <= old(store.counter).value < TWO_64)
    {
      if dirty {
        if w.w.endsDelay {
          return Err(Plain(DelayCancelled));
        }
        if w.w.answer.None? {
          return Err(Plain(FetchFailed));
        }
        var stored := StoreNext(w.w.answer.value, w.store);
        if !stored {
          return Err(CounterFailed);
        }
        dirty := false;
        return Ok(w.w.answer.value);
      }
      if !w.existsOk {
        return Err(CounterFailed);
      }
      if store.counter.None? {
        if w.w.answer.None? {
          return Err(Plain(FetchFailed));
        }
        var stored := StoreNext(w.w.answer.value, w.store);
        return if stored then Ok(w.w.answer.value) else Err(CounterFailed);
      }
      if !w.getOk {
        return Err(CounterFailed);
      }
      var current := store.counter.value;
      if !RP.Parses(current) {
        return Err(CounterUnparsable);
      }
      var stored := StoreNext(current, w.store);
      return if stored then Ok(current) else Err(CounterFailed);
    }
  }

  class Slot {
    const manager: NonceManager
    var resolved: bool

    constructor (manager: NonceManager)
      ensures this.manager == manager && !resolved
    {
      this.manager := manager;
      resolved := false;
    }

    /**
     The first resolution applies its rule; any later one changes nothing; and another
     instance's lock is never touched.
     */
    twostate predicate Settled(how: How, decr: RP.Reply, release: RP.Reply)
      reads this, manager, manager.store
    {
      && resolved
      && (old(manager.store.lock) != Some(manager.inst) ==> manager.store.lock == old(manager.store.lock))
      && manager.Model() ==
           if old(resolved) then old(manager.Model()) else ResolveSpec(old(manager.Model()), how, decr, release)
    }

    method Commit(release: RP.Reply)
      modifies this, manager, manager.store
      ensures Settled(Common.Commit, RP.Done, release)
      ensures manager.store.counter == old(manager.store.counter) && manager.dirty == old(manager.dirty)
    {
      if resolved {
        return;
      }
      resolved := true;
      var _ := manager.ReleaseLock(release);
    }

    method Reuse(decr: RP.Reply, release: RP.Reply)
      modifies this, manager, manager.store
      ensures Settled(Common.Reuse, decr, release)
      ensures manager.dirty == old(manager.dirty)
      ensures !old(resolved) && decr.Done? && old(manager.store.counter).Some?
              ==> manager.store.counter == if old(manager.store.counter).value > MAX_INT64
                                              || old(manager.store.counter).value < -MAX_INT64
                                           then old(manager.store.counter)
                                           else Some(old(manager.store.counter).value - 1)
    {
      if resolved {
        return;
      }
      resolved := true;
      if !decr.NotDone? {
        var _ := manager.store.Decr();
      }
      var _ := manager.ReleaseLock(release);
    }

    method Reclaim(release: RP.Reply)
      modifies this, manager, manager.store
      ensures Settled(Common.Reclaim, RP.Done, release)
      ensures manager.store.counter == old(manager.store.counter)
      ensures manager.dirty == (old(manager.dirty) || !old(resolved))
    {
      if resolved {
        return;
      }
      resolved := true;
      manager.dirty := true;
      var _ := manager.ReleaseLock(release);
    }
  }

  // ------------------------------------------ the step system behind one call

  /** Instance inst's view of a state of the step system. */
  function Abs(s: RP.State, inst: nat): State {
    State(true, inst, s.lock, s.counter, inst in s.dirty)
  }

  function Ended(reply: RP.Reply, done: seq<RP.Action>, failed: seq<RP.Action>): seq<RP.Action> {
    if reply.Done? then done else failed
  }

  /** The actions of NextNonce by goroutine t of an instance whose view is s, with the release on failure. */
  function NextNonceRun(s: State, t: nat, w: RedisWorld): seq<RP.Action> {
    var giveUp := [RP.Release(t, w.release)];
    if s.dirty then
      if w.w.endsDelay then [RP.Cancel(t)] + giveUp
      else
        match w.w.answer
        case None => [RP.FetchFail(t)] + giveUp
        case Some(n) => [RP.Fetch(t, n), RP.Set(t, w.store)] + Ended(w.store, [RP.ClearDirty(t)], giveUp)
    else if !w.existsOk then [RP.Exists(t, false)] + giveUp
    else if s.counter.None? then
      match w.w.answer
      case None => [RP.Exists(t, true), RP.FetchFail(t)] + giveUp
      case Some(n) =>
        [RP.Exists(t, true), RP.Fetch(t, n)] + ([RP.Set(t, w.store)] + Ended(w.store, [], giveUp))
    else if !w.getOk || !RP.Parses(s.counter.value) then
      [RP.Exists(t, true), RP.Get(t, w.getOk)] + giveUp
    else
      [RP.Exists(t, true), RP.Get(t, true)] + ([RP.Set(t, w.store)] + Ended(w.store, [], giveUp))
  }

  lemma {:induction false} RunConcat(s: RP.State, a: seq<RP.Action>, b: seq<RP.Action>)
    requires RP.Legal(s, a) && RP.Legal(RP.Final(s, a), b)
    ensures RP.Legal(s, a + b) && RP.Final(s, a + b) == RP.Final(RP.Final(s, a), b)
    decreases |a|
  {
    if a == [] {
      assert a + b == b;
    } else {
      assert (a + b)[1..] == a[1..] + b;
      RunConcat(RP.Apply(s, a[0]), a[1..], b);
    }
  }

  lemma RunOfOne(s: RP.State, a: RP.Action)
    requires RP.Enabled(s, a)
    ensures RP.Legal(s, [a]) && RP.Final(s, [a]) == RP.Apply(s, a)
  {
    assert [a][1..] == [];
  }

  lemma RunOfTwo(s: RP.State, a: RP.Action, b: RP.Action)
    requires RP.Enabled(s, a) && RP.Enabled(RP.Apply(s, a), b)
    ensures RP.Legal(s, [a, b]) && RP.Final(s, [a, b]) == RP.Apply(RP.Apply(s, a), b)
  {
    RunOfOne(s, a);
    RunOfOne(RP.Apply(s, a), b);
    RunConcat(s, [a], [b]);
    assert [a] + [b] == [a, b];
  }

  /** s' is s after a call of instance inst that ended as out says. */
  predicate Reflects(s: RP.State, s': RP.State, inst: nat, out: (State, Result<uint64, Error>)) {
    && Abs(s', inst) == out.0
    && s'.threads == s.threads
    && s'.dirty - {inst} == s.dirty - {inst}
    && s'.slots == (match out.1 case Ok(n) => s.slots + [RP.Slot(inst, n, RP.Open)] case Err(_) => s.slots)
  }

  /** t has just obtained the lock for inst in state s. */
  predicate Entered(s: RP.State, s': RP.State, t: nat, inst: nat, pc: RP.Pc) {
    && !RP.In(s, t)
    && s' == s.(lock := Some(inst), threads := s.threads[t := RP.Thread(inst, pc)])
  }

  lemma GivesUp(s: RP.State, s': RP.State, t: nat, inst: nat, w: RedisWorld, e: Error)
    requires !RP.In(s, t) && s'.lock == Some(inst) && s'.threads == s.threads[t := RP.Thread(inst, RP.Failing)]
    requires s'.dirty == s.dirty && s'.slots == s.slots
    ensures RP.Legal(s', [RP.Release(t, w.release)])
    ensures Reflects(s, RP.Final(s', [RP.Release(t, w.release)]), inst,
                     (ReleaseSpec(Abs(s', inst), w.release), Err(e)))
  {
    RunOfOne(s', RP.Release(t, w.release));
    assert RP.Apply(s', RP.Release(t, w.release)).threads == s.threads;
  }

  /** Storing the next nonce, from the two pcs that then hand it out. */
  lemma StoresOrGivesUp(s: RP.State, s': RP.State, t: nat, inst: nat, w: RedisWorld, pc: RP.Pc)
    requires Entered(s, s', t, inst, pc) && (pc.SeedFetched? || pc.Bumping?)
    ensures var run := [RP.Set(t, w.store)] + Ended(w.store, [], [RP.Release(t, w.release)]);
            && RP.Legal(s', run)
            && var (v, r) := SetSpec(Abs(s', inst), pc.n, w.store);
            Reflects(s, RP.Final(s', run), inst, (if r.Ok? then v else ReleaseSpec(v, w.release), r))
  {
    RunOfOne(s', RP.Set(t, w.store));
    var s1 := RP.Apply(s', RP.Set(t, w.store));
    if w.store.Done? {
      assert [RP.Set(t, w.store)] + Ended(w.store, [], [RP.Release(t, w.release)]) == [RP.Set(t, w.store)];
      assert s1.threads == s.threads;
    } else {
      GivesUp(s, s1, t, inst, w, CounterFailed);
      RunConcat(s', [RP.Set(t, w.store)], [RP.Release(t, w.release)]);
    }
  }

  lemma StaleIsARun(s: RP.State, s': RP.State, t: nat, inst: nat, w: RedisWorld)
    requires Entered(s, s', t, inst, RP.StaleWait) && inst in s.dirty
    ensures Matches(s, s', t, inst, w)
  {
    if w.w.endsDelay {
      RunOfOne(s', RP.Cancel(t));
      var s1 := RP.Apply(s', RP.Cancel(t));
      GivesUp(s, s1, t, inst, w, Plain(DelayCancelled));
      RunConcat(s', [RP.Cancel(t)], [RP.Release(t, w.release)]);
    } else {
      match w.w.answer
      case None =>
        RunOfOne(s', RP.FetchFail(t));
        GivesUp(s, RP.Apply(s', RP.FetchFail(t)), t, inst, w, Plain(FetchFailed));
        RunConcat(s', [RP.FetchFail(t)], [RP.Release(t, w.release)]);
      case Some(n) =>
        var a, b := RP.Fetch(t, n), RP.Set(t, w.store);
        RunOfTwo(s', a, b);
        var s2 := RP.Apply(RP.Apply(s', a), b);
        if w.store.Done? {
          RunOfOne(s2, RP.ClearDirty(t));
          assert RP.Apply(s2, RP.ClearDirty(t)).threads == s.threads;
          RunConcat(s', [a, b], [RP.ClearDirty(t)]);
        } else {
          GivesUp(s, s2, t, inst, w, CounterFailed);
          RunConcat(s', [a, b], [RP.Release(t, w.release)]);
        }
    }
  }

  lemma CleanIsARun(s: RP.State, s': RP.State, t: nat, inst: nat, w: RedisWorld)
    requires Entered(s, s', t, inst, RP.Probing) && inst !in s.dirty
    ensures Matches(s, s', t, inst, w)
  {
    var probe := RP.Exists(t, w.existsOk);
    if !w.existsOk {
      RunOfOne(s', probe);
      GivesUp(s, RP.Apply(s', probe), t, inst, w, CounterFailed);
      RunConcat(s', [probe], [RP.Release(t, w.release)]);
    } else if s.counter.None? {
      match w.w.answer
      case None =>
        RunOfTwo(s', probe, RP.FetchFail(t));
        GivesUp(s, RP.Apply(RP.Apply(s', probe), RP.FetchFail(t)), t, inst, w, Plain(FetchFailed));
        RunConcat(s', [probe, RP.FetchFail(t)], [RP.Release(t, w.release)]);
      case Some(n) =>
        RunOfTwo(s', probe, RP.Fetch(t, n));
        var s2 := RP.Apply(RP.Apply(s', probe), RP.Fetch(t, n));
        StoresOrGivesUp(s, s2, t, inst, w, RP.SeedFetched(n));
        RunConcat(s', [probe, RP.Fetch(t, n)],
                  [RP.Set(t, w.store)] + Ended(w.store, [], [RP.Release(t, w.release)]));
    } else {
      var read := RP.Get(t, w.getOk);
      RunOfTwo(s', probe, read);
      var s2 := RP.Apply(RP.Apply(s', probe), read);
      if !w.getOk || !RP.Parses(s.counter.value) {
        GivesUp(s, s2, t, inst, w, if w.getOk then CounterUnparsable else CounterFailed);
        RunConcat(s', [probe, read], [RP.Release(t, w.release)]);
      } else {
        StoresOrGivesUp(s, s2, t, inst, w, RP.Bumping(s.counter.value));
        RunConcat(s', [probe, read], [RP.Set(t, w.store)] + Ended(w.store, [], [RP.Release(t, w.release)]));
      }
    }
  }

  /** From s', the actions of NextNonce end in s as specified, releasing the lock on failure. */
  predicate Matches(s: RP.State, s': RP.State, t: nat, inst: nat, w: RedisWorld) {
    var view := Abs(s', inst);
    var run := NextNonceRun(view, t, w);
    && RP.Legal(s', run)
    && var (v, r) := NextNonceSpec(view, w);
    Reflects(s, RP.Final(s', run), inst, (if r.Ok? then v else ReleaseSpec(v, w.release), r))
  }

  /** t polls a lock that stays taken, until a command fails or the wait ends. */
  function PollRun(t: nat, attempts: seq<Attempt>): seq<RP.Action> {
    if attempts == [] then [RP.Cancel(t)]
    else if !attempts[0].reply.Done? then [RP.SetNX(t, attempts[0].reply)]
    else [RP.SetNX(t, RP.Done)] + PollRun(t, attempts[1..])
  }

  function AcquireRun(s: RP.State, t: nat, inst: nat, w: RedisWorld): seq<RP.Action> {
    if w.w.endsWait then [RP.Call(t, inst), RP.Cancel(t)]
    else if s.lock.Some? then [RP.Call(t, inst)] + PollRun(t, Attempts(s.lock, w))
    else if !w.first.Done? then [RP.Call(t, inst), RP.SetNX(t, w.first)]
    else [RP.Call(t, inst), RP.SetNX(t, RP.Done)] + ([RP.LoadDirty(t)] + NextNonceRun(Abs(s, inst), t, w))
  }

  /** From the moment the lock is obtained. */
  lemma LockedIsARun(s: RP.State, s2: RP.State, t: nat, inst: nat, w: RedisWorld)
    requires Entered(s, s2, t, inst, RP.Checking)
    ensures var run, view := [RP.LoadDirty(t)] + NextNonceRun(Abs(s, inst), t, w), Abs(s2, inst);
            && RP.Legal(s2, run)
            && var (v, r) := NextNonceSpec(view, w);
            Reflects(s, RP.Final(s2, run), inst, (if r.Ok? then v else ReleaseSpec(v, w.release), r))
  {
    RunOfOne(s2, RP.LoadDirty(t));
    var s3 := RP.Apply(s2, RP.LoadDirty(t));
    assert s3.threads == s.threads[t := s3.threads[t]];
    if inst in s.dirty {
      StaleIsARun(s, s3, t, inst, w);
    } else {
      CleanIsARun(s, s3, t, inst, w);
    }
    assert NextNonceRun(Abs(s3, inst), t, w) == NextNonceRun(Abs(s, inst), t, w);
    RunConcat(s2, [RP.LoadDirty(t)], NextNonceRun(Abs(s, inst), t, w));
  }

  /** Nobody else changes the lock while t polls. */
  predicate Undisturbed(lock: Option<nat>, attempts: seq<Attempt>) {
    forall i :: 0 <= i < |attempts| ==> attempts[i].lock == lock
  }

  lemma {:induction false} PollingIsARun(s: RP.State, s': RP.State, t: nat, inst: nat, attempts: seq<Attempt>)
    requires !RP.In(s, t) && s' == s.(threads := s.threads[t := RP.Thread(inst, RP.Polling)])
    requires s.lock.Some? && Undisturbed(s.lock, attempts)
    ensures RP.Legal(s', PollRun(t, attempts)) && RP.Final(s', PollRun(t, attempts)) == s
    ensures attempts != [] ==>
              LockSpec(inst, attempts).0 == s.lock && LockSpec(inst, attempts).1.Err?
    decreases |attempts|
  {
    if attempts == [] {
      RunOfOne(s', RP.Cancel(t));
      assert RP.Apply(s', RP.Cancel(t)).threads == s.threads;
    } else {
      assert attempts[0].lock == s.lock;
      var take := RP.SetNX(t, attempts[0].reply);
      RunOfOne(s', take);
      if attempts[0].reply.Done? {
        PollingIsARun(s, s', t, inst, attempts[1..]);
        RunConcat(s', [take], PollRun(t, attempts[1..]));
      } else {
        assert RP.Apply(s', take).threads == s.threads;
      }
    }
  }

  lemma NotTakenIsARun(s: RP.State, t: nat, inst: nat, w: RedisWorld)
    requires !RP.In(s, t) && Undisturbed(s.lock, w.more) && (w.w.endsWait || !w.first.Done? || s.lock.Some?)
    ensures RP.Legal(s, AcquireRun(s, t, inst, w))
    ensures Reflects(s, RP.Final(s, AcquireRun(s, t, inst, w)), inst, AcquireSpec(Abs(s, inst), w))
  {
    var call, take := RP.Call(t, inst), RP.SetNX(t, w.first);
    var s1 := RP.Apply(s, call);
    if w.w.endsWait {
      RunOfTwo(s, call, RP.Cancel(t));
      assert RP.Apply(s1, RP.Cancel(t)).threads == s.threads;
    } else if s.lock.Some? {
      var attempts := Attempts(s.lock, w);
      assert Undisturbed(s.lock, attempts);
      RunOfOne(s, call);
      PollingIsARun(s, s1, t, inst, attempts);
      RunConcat(s, [call], PollRun(t, attempts));
    } else {
      RunOfTwo(s, call, take);
      assert RP.Apply(s1, take).threads == s.threads;
    }
  }

  /**
   An undisturbed Acquire of the step system is the specified one, polling included: the
   lock is obtained at once if it is free, and otherwise polled until a command fails or
   the wait ends.
   */
  lemma AcquireIsARun(s: RP.State, t: nat, inst: nat, w: RedisWorld)
    requires !RP.In(s, t) && Undisturbed(s.lock, w.more)
    ensures RP.Legal(s, AcquireRun(s, t, inst, w))
    ensures Reflects(s, RP.Final(s, AcquireRun(s, t, inst, w)), inst, AcquireSpec(Abs(s, inst), w))
  {
    if w.w.endsWait || !w.first.Done? || s.lock.Some? {
      NotTakenIsARun(s, t, inst, w);
    } else {
      var call, take := RP.Call(t, inst), RP.SetNX(t, w.first);
      RunOfTwo(s, call, take);
      var s2 := RP.Apply(RP.Apply(s, call), take);
      assert s2.threads == s.threads[t := RP.Thread(inst, RP.Checking)];
      LockedIsARun(s, s2, t, inst, w);
      RunConcat(s, [call, take], [RP.LoadDirty(t)] + NextNonceRun(Abs(s, inst), t, w));
    }
  }

  function ResolveRun(t: nat, i: nat, how: How, decr: RP.Reply, release: RP.Reply): seq<RP.Action> {
    match how
    case Commit => [RP.Resolve(t, i, how), RP.Release(t, release)]
    case Reuse => [RP.Resolve(t, i, how), RP.Decr(t, decr)] + [RP.Release(t, release)]
    case Reclaim => [RP.Resolve(t, i, how), RP.MarkDirty(t)] + [RP.Release(t, release)]
  }

  lemma CommitIsARun(s: RP.State, t: nat, i: nat, release: RP.Reply)
    requires !RP.In(s, t) && RP.IsOpen(s, i)
    ensures Resolves(s, t, i, Common.Commit, RP.Done, release)
  {
    var win, free := RP.Resolve(t, i, Common.Commit), RP.Release(t, release);
    RunOfTwo(s, win, free);
    assert RP.Apply(RP.Apply(s, win), free).threads == s.threads;
  }

  lemma SettlingIsARun(s: RP.State, t: nat, i: nat, how: How, decr: RP.Reply, release: RP.Reply)
    requires !RP.In(s, t) && RP.IsOpen(s, i) && !how.Commit?
    ensures Resolves(s, t, i, how, decr, release)
  {
    var win, free := RP.Resolve(t, i, how), RP.Release(t, release);
    var settle := if how.Reuse? then RP.Decr(t, decr) else RP.MarkDirty(t);
    RunOfTwo(s, win, settle);
    var s2 := RP.Apply(RP.Apply(s, win), settle);
    RunOfOne(s2, free);
    assert RP.Apply(s2, free).threads == s.threads;
    RunConcat(s, [win, settle], [free]);
  }

  /** The actions of one resolution of open slot i have exactly the specified effect. */
  predicate Resolves(s: RP.State, t: nat, i: nat, how: How, decr: RP.Reply, release: RP.Reply)
    requires RP.IsOpen(s, i)
  {
    var run, inst := ResolveRun(t, i, how, decr, release), s.slots[i].inst;
    && RP.Legal(s, run)
    && var s' := RP.Final(s, run);
    && Abs(s', inst) == ResolveSpec(Abs(s, inst), how, decr, release)
    && s'.threads == s.threads && s'.dirty - {inst} == s.dirty - {inst}
    && s'.slots == s.slots[i := s.slots[i].(status := RP.Closed)]
  }

  /** An undisturbed first resolution of the step system is the specified one. */
  lemma ResolveIsARun(s: RP.State, t: nat, i: nat, how: How, decr: RP.Reply, release: RP.Reply)
    requires !RP.In(s, t) && RP.IsOpen(s, i)
    ensures Resolves(s, t, i, how, decr, release)
  {
    if how.Commit? {
      CommitIsARun(s, t, i, release);
    } else {
      SettlingIsARun(s, t, i, how, decr, release);
    }
  }
}
