/**
 The two managers seen from outside: the same script of calls, with the same answers
 of the nonce source, yields the same nonces and the same errors.
 */
module Equivalence {
  import opened Common
  import opened NonceContract
  import L = LocalManager
  import R = RedisManager
  import RP = RedisProtocol

  datatype Call = Acquire(w: World) | Resolve(i: nat, how: How)

  datatype Answer = Got(n: uint64) | Failed(e: R.Error) | Nothing

  /** A slot as its holder knows it. */
  datatype Slot = Slot(nonce: uint64, resolved: bool)

  datatype Local = Local(m: L.State, slots: seq<Slot>)

  datatype Redis = Redis(m: R.State, slots: seq<Slot>)

  predicate FirstResolution(slots: seq<Slot>, i: nat) {
    i < |slots| && !slots[i].resolved
  }

  function Close(slots: seq<Slot>, i: nat): seq<Slot>
    requires i < |slots|
  {
    slots[i := slots[i].(resolved := true)]
  }

  function LocalCall(s: Local, c: Call): (Local, Answer) {
    match c
    case Acquire(w) =>
      var (m, r) := L.AcquireSpec(s.m, w);
      (match r
       case Ok(n) => (Local(m, s.slots + [Slot(n, false)]), Got(n))
       case Err(e) => (Local(m, s.slots), Failed(R.Plain(e))))
    case Resolve(i, how) =>
      if FirstResolution(s.slots, i)
      then (Local(L.ResolveSpec(s.m, how), Close(s.slots, i)), Nothing)
      else (s, Nothing)
  }

  /** Redis answers every command at once and as reported. */
  function Healthy(w: World): R.RedisWorld {
    R.RedisWorld(w, RP.Done, [], true, true, RP.Done, RP.Done)
  }

  function RedisCall(s: Redis, c: Call): (Redis, Answer) {
    match c
    case Acquire(w) =>
      var (m, r) := R.AcquireSpec(s.m, Healthy(w));
      (match r
       case Ok(n) => (Redis(m, s.slots + [Slot(n, false)]), Got(n))
       case Err(e) => (Redis(m, s.slots), Failed(e)))
    case Resolve(i, how) =>
      if FirstResolution(s.slots, i)
      then (Redis(R.ResolveSpec(s.m, how, RP.Done, RP.Done), Close(s.slots, i)), Nothing)
      else (s, Nothing)
  }

  function LocalAnswers(s: Local, script: seq<Call>): seq<Answer>
    decreases |script|
  {
    if script == [] then []
    else var (s', a) := LocalCall(s, script[0]); [a] + LocalAnswers(s', script[1..])
  }

  function RedisAnswers(s: Redis, script: seq<Call>): seq<Answer>
    decreases |script|
  {
    if script == [] then []
    else var (s', a) := RedisCall(s, script[0]); [a] + RedisAnswers(s', script[1..])
  }

  // ------------------------------------------------------------------ relation

  /** The Redis counter is one past the local nonce, and the lock is the local slot. */
  predicate SameCounter(l: L.State, r: R.State) {
    && l.ready == r.ready && l.dirty == r.dirty
    && r.lock == (if l.free then None else Some(r.inst))
    && r.counter == (if l.hasNonce then Some(Inc(l.nonce)) else None)
  }

  /** An open slot is the one that occupies the manager, and its nonce is the current one. */
  predicate OneOpenSlot(s: Local) {
    forall i :: 0 <= i < |s.slots| && !s.slots[i].resolved ==>
      && !s.m.free && s.m.hasNonce && !s.m.dirty && s.slots[i].nonce == s.m.nonce
      && forall j :: 0 <= j < |s.slots| && !s.slots[j].resolved ==> j == i
  }

  predicate Related(l: Local, r: Redis) {
    SameCounter(l.m, r.m) && l.slots == r.slots && OneOpenSlot(l)
  }

  /** A Reuse that DECR can carry out: the counter, one past the nonce, is an int64. */
  predicate Reusable(n: uint64) {
    n < MAX_INT64
  }

  /** Every Reuse in the script that is a first resolution is of a reusable nonce. */
  predicate ReusesFit(s: Local, script: seq<Call>)
    decreases |script|
  {
    script == [] ||
    (Fits(s, script[0]) && ReusesFit(LocalCall(s, script[0]).0, script[1..]))
  }

  predicate Fits(s: Local, c: Call) {
    c.Resolve? && c.how.Reuse? && FirstResolution(s.slots, c.i) ==> Reusable(s.slots[c.i].nonce)
  }

  lemma CallsAgree(l: Local, r: Redis, c: Call)
    requires Related(l, r) && Fits(l, c)
    ensures Related(LocalCall(l, c).0, RedisCall(r, c).0)
    ensures LocalCall(l, c).1 == RedisCall(r, c).1
  {
    if c.Acquire? && l.m.ready && l.m.free && !c.w.endsWait {
      assert R.Attempts(r.m.lock, Healthy(c.w)) == [R.Attempt(None, RP.Done)];
    }
  }

  /**
   Observational equality.  From two fresh managers, every script gets the same nonces
   and the same errors, as long as no nonce of 2^63 - 1 or more is reused.
   */
  lemma {:induction false} SameAnswers(l: Local, r: Redis, script: seq<Call>)
    requires Related(l, r) && ReusesFit(l, script)
    ensures LocalAnswers(l, script) == RedisAnswers(r, script)
    decreases |script|
  {
    if script != [] {
      CallsAgree(l, r, script[0]);
      SameAnswers(LocalCall(l, script[0]).0, RedisCall(r, script[0]).0, script[1..]);
    }
  }

  lemma FreshManagersAgree(ready: bool, inst: nat, script: seq<Call>)
    requires ReusesFit(Local(L.Fresh(ready), []), script)
    ensures LocalAnswers(Local(L.Fresh(ready), []), script)
         == RedisAnswers(Redis(R.State(ready, inst, None, None, false), []), script)
  {
    SameAnswers(Local(L.Fresh(ready), []), Redis(R.State(ready, inst, None, None, false), []), script);
  }

  // ----------------------------------------------------------------- exactness

  function ReuseThenAcquire(i: nat, answer: Option<uint64>): seq<Call> {
    [Resolve(i, Reuse), Acquire(World(false, false, answer))]
  }

  /**
   The bound is exact: after reusing an open slot, the next Acquire gets the same
   answer from both managers if and only if its nonce is below 2^63 - 1.
   */
  lemma ReuseAgreesExactly(l: Local, r: Redis, i: nat, answer: Option<uint64>)
    requires Related(l, r) && FirstResolution(l.slots, i) && l.m.ready
    ensures LocalAnswers(l, ReuseThenAcquire(i, answer)) == RedisAnswers(r, ReuseThenAcquire(i, answer))
       <==> Reusable(l.slots[i].nonce)
    ensures LocalAnswers(l, ReuseThenAcquire(i, answer)) == [Nothing, Got(l.slots[i].nonce)]
  {
    var script := ReuseThenAcquire(i, answer);
    var n := l.slots[i].nonce;
    var (l1, _) := LocalCall(l, script[0]);
    var (r1, _) := RedisCall(r, script[0]);
    assert r1.m.lock == None;
    assert R.Attempts(r1.m.lock, Healthy(script[1].w)) == [R.Attempt(None, RP.Done)];
    assert script[1..] == [script[1]] && [script[1]][1..] == [];
    assert LocalCall(l1, script[1]).1 == Got(Inc(Dec(n))) == Got(n);
    assert LocalAnswers(l1, [script[1]]) == [LocalCall(l1, script[1]).1];
    assert RedisAnswers(r1, [script[1]]) == [RedisCall(r1, script[1]).1];
    assert LocalAnswers(l, script)[1] == LocalCall(l1, script[1]).1;
    assert RedisAnswers(r, script)[1] == RedisCall(r1, script[1]).1;
    if !Reusable(n) {
      if n == TWO_64 - 1 {
        assert r1.m.counter == Some(-1);
      } else {
        assert r1.m.counter == Some(n + 1);
      }
    }
  }

  /**
   And the bound is reached: two fresh managers whose source answers 2^63 - 1 give the
   first nonce alike, and after its Reuse the local one gives it again and Redis the next.
   */
  lemma FreshManagersPartAtTheBound(inst: nat)
    ensures var script := [Acquire(World(false, false, Some(MAX_INT64)))] + ReuseThenAcquire(0, None);
            && LocalAnswers(Local(L.Fresh(true), []), script)
               == [Got(MAX_INT64), Nothing, Got(MAX_INT64)]
            && RedisAnswers(Redis(R.State(true, inst, None, None, false), []), script)
               == [Got(MAX_INT64), Nothing, Got(MAX_INT64 + 1)]
  {
    var first, rest := Acquire(World(false, false, Some(MAX_INT64))), ReuseThenAcquire(0, None);
    assert ([first] + rest)[1..] == rest;
    var l, r := Local(L.Fresh(true), []), Redis(R.State(true, inst, None, None, false), []);
    assert R.Attempts(r.m.lock, Healthy(first.w)) == [R.Attempt(None, RP.Done)];
    var (l1, _) := LocalCall(l, first);
    var (r1, _) := RedisCall(r, first);
    assert r1.m.lock == Some(inst) && r1.m.counter == Some(MAX_INT64 + 1);
    var (l2, _) := LocalCall(l1, rest[0]);
    var (r2, _) := RedisCall(r1, rest[0]);
    assert r2.m == r1.m.(lock := None);
    assert rest[1..] == [rest[1]] && [rest[1]][1..] == [];
    assert R.Attempts(r2.m.lock, Healthy(rest[1].w)) == [R.Attempt(None, RP.Done)];
    assert RedisCall(r2, rest[1]).1 == Got(MAX_INT64 + 1);
    assert LocalCall(l2, rest[1]).1 == Got(MAX_INT64);
    assert RedisAnswers(r2, [rest[1]]) == [RedisCall(r2, rest[1]).1];
    assert LocalAnswers(l2, [rest[1]]) == [LocalCall(l2, rest[1]).1];
  }
}
