/**
 TxManager.Submit: calldata, prediction, a nonce, preparation, one broadcast, and the
 resolution of the slot, over the in-process nonce manager and one node.
 */
module Submit {
  import opened Common
  import opened Bytes
  import opened NonceContract
  import opened ChainRegistry
  import opened Versions
  import opened Predict
  import opened Deploy
  import A = Account
  import L = LocalManager
  import LP = LocalProtocol
  import SP = SubmitProtocol
  import Fees

  // --------------------------------------------------------------- transactions

  datatype Tx =
    | LegacyTx(nonce: uint64, gasPrice: nat, gas: nat, to: Address, value: nat, data: Bytes)
    | DynamicFeeTx(chainID: Key, nonce: uint64, gasTipCap: nat, gasFeeCap: nat, gas: nat,
                   to: Address, value: nat, data: Bytes)

  /** baseFee is None on chains without EIP-1559; only then is gasPrice used. */
  function BuildTx(chainID: Key, to: Address, data: Bytes, nonce: uint64, gasLimit: nat,
                   tip: nat, baseFee: Option<nat>, gasPrice: nat): Tx
  {
    match baseFee
    case None => LegacyTx(nonce, gasPrice, gasLimit, to, 0, data)
    case Some(fee) => DynamicFeeTx(chainID, nonce, tip, Fees.FeeCap(fee, tip), gasLimit, to, 0, data)
  }

  // -------------------------------------------------------------- specification

  /**
   What the node and the signer answer during one Submit: None is an error; head is the
   latest header's base fee, if it has one; gas includes the configured headroom.
   */
  datatype Answers = Answers(
    deployed: Option<bool>,
    gas: Option<nat>,
    tip: Option<nat>,
    head: Option<Option<nat>>,
    gasPrice: Option<nat>,
    signs: bool,
    outcome: A.Outcome)

  datatype SubmitError =
    | CalldataFailed(c: CalldataError)
    | NotPredicted(p: PredictError)
    | AcquireFailed(a: AcquireError)
    | AlreadyDeployed
    | GasFailed
    | TipFailed
    | HeadFailed
    | GasPriceFailed
    | SigningFailed
    | SendFailed

  /** Every answer a transaction needs is there, and the address is not known to be deployed. */
  predicate Prepared(a: Answers) {
    && a.deployed != Some(true)
    && a.gas.Some? && a.tip.Some? && a.head.Some?
    && (a.head.value.None? ==> a.gasPrice.Some?)
    && a.signs
  }

  /** The node refuses a nonce no transaction may have. */
  function Effective(n: uint64, outcome: A.Outcome): A.Outcome {
    if n < A.MAX_NONCE then outcome else A.Refused
  }

  function Resolution(n: uint64, a: Answers): How {
    if !Prepared(a) then Reuse
    else if Effective(n, a.outcome).Accepted? then Commit
    else Reclaim
  }

  /** Submit's effect on the manager and the account once its calldata and address are computed. */
  function Effect(m: L.State, account: A.State, w: World, a: Answers): (L.State, A.State) {
    var (m1, taken) := L.AcquireSpec(m, w);
    match taken
    case Err(_) => (m1, account)
    case Ok(n) =>
      (L.ResolveSpec(m1, Resolution(n, a)),
       if !Prepared(a) then account else A.Broadcast(account, n, Effective(n, a.outcome)))
  }

  // ----------------------------------------------------------- what a Submit does

  /** The error is that of the first preparation step that fails. */
  predicate FirstFailure(a: Answers, r: Result<Tx, SubmitError>) {
    if a.deployed == Some(true) then r == Err(AlreadyDeployed)
    else if a.gas.None? then r == Err(GasFailed)
    else if a.tip.None? then r == Err(TipFailed)
    else if a.head.None? then r == Err(HeadFailed)
    else if a.head.value.None? && a.gasPrice.None? then r == Err(GasPriceFailed)
    else !a.signs ==> r == Err(SigningFailed)
  }

  /** With nonce n: legacy on a chain without base fee, else capped at twice the base fee and the tip. */
  function Transaction(chainID: Key, to: Address, data: Bytes, n: uint64, a: Answers): Tx
    requires Prepared(a)
  {
    match a.head.value
    case None => LegacyTx(n, a.gasPrice.value, a.gas.value, to, 0, data)
    case Some(fee) => DynamicFeeTx(chainID, n, a.tip.value, 2 * fee + a.tip.value, a.gas.value, to, 0, data)
  }

  /** The manager, the account, and everything broadcast. */
  datatype View = View(m: L.State, account: A.State, broadcasts: seq<Tx>)

  /**
   What a Submit with this calldata does.  The effect on manager and account is the
   specified one; a nonce that cannot be acquired ends it; the slot acquired, if any, is
   resolved exactly once (calls), by Reuse iff nothing was broadcast, by Reclaim iff the
   broadcast failed and by Commit iff it succeeded; a transaction is broadcast exactly if
   every preparation step succeeded, and it is the one with the acquired nonce and the
   answered prices.
   */
  predicate Submitted(v: View, v': View, chainID: Key, to: Address, data: Bytes, w: World, a: Answers,
                      r: Result<Tx, SubmitError>, calls: seq<How>)
  {
    && (v'.m, v'.account) == Effect(v.m, v.account, w, a)
    && match L.AcquireSpec(v.m, w).1
       case Err(e) => calls == [] && r == Err(AcquireFailed(e)) && v'.broadcasts == v.broadcasts
       case Ok(n) =>
         && FirstFailure(a, r)
         && (!Prepared(a) ==> calls == [Reuse] && v'.broadcasts == v.broadcasts)
         && (Prepared(a) ==>
               var tx := Transaction(chainID, to, data, n, a);
               && v'.broadcasts == v.broadcasts + [tx]
               && (if a.outcome.Accepted? && n < A.MAX_NONCE then r == Ok(tx) && calls == [Commit]
                   else r == Err(SendFailed) && calls == [Reclaim]))
  }

  /** Something is broadcast exactly if a nonce was acquired and no answer stands in the way. */
  lemma BroadcastExactly(v: View, v': View, chainID: Key, to: Address, data: Bytes, w: World, a: Answers,
                         r: Result<Tx, SubmitError>, calls: seq<How>)
    requires Submitted(v, v', chainID, to, data, w, a, r, calls)
    ensures v'.broadcasts != v.broadcasts <==>
              && calls != [] && a.deployed != Some(true)
              && a.gas.Some? && a.tip.Some? && a.head.Some?
              && (a.head.value.None? ==> a.gasPrice.Some?) && a.signs
    ensures calls != [] && a.deployed == Some(true) ==> r == Err(AlreadyDeployed)
  {
    if calls != [] && Prepared(a) {
      assert |v'.broadcasts| == |v.broadcasts| + 1;
    }
  }

  // -------------------------------------------------------------------- objects

  /** The node a client broadcasts to. */
  class Node {
    var account: A.State
    var broadcasts: seq<Tx>

    constructor (pending: nat)
      ensures account == A.State(pending, []) && broadcasts == []
    {
      account, broadcasts := A.State(pending, []), [];
    }

    /** Whether the client sees success. */
    method SendTransaction(tx: Tx, outcome: A.Outcome) returns (ok: bool)
      modifies this
      ensures broadcasts == old(broadcasts) + [tx]
      ensures account == A.Broadcast(old(account), tx.nonce, Effective(tx.nonce, outcome))
      ensures ok == Effective(tx.nonce, outcome).Accepted?
    {
      broadcasts := broadcasts + [tx];
      if outcome.Refused? || tx.nonce >= A.MAX_NONCE {
        return false;
      }
      account := A.Accept(account, tx.nonce);
      return outcome.Accepted?;
    }
  }

  class TxManager {
    const keccak: Keccak
    const nonceManager: L.NonceManager
    const node: Node

    constructor (keccak: Keccak, nonceManager: L.NonceManager, node: Node)
      ensures this.keccak == keccak && this.nonceManager == nonceManager && this.node == node
    {
      this.keccak, this.nonceManager, this.node := keccak, nonceManager, node;
    }

    ghost function Now(): View
      reads nonceManager, node
    {
      View(nonceManager.Model(), node.account, node.broadcasts)
    }

    /** Nothing that precedes the acquisition of a nonce fails. */
    predicate Computable(d: Deployment, chainID: Key, isL2: bool, input: Input) {
      BuildCalldata(keccak, input, d, chainID, isL2).Ok? && PredictAddress(keccak, input, d, chainID, isL2).Ok?
    }

    /** Submit from the acquisition of a nonce on. */
    method SubmitCalldata(chainID: Key, to: Address, data: Bytes, w: World, a: Answers)
      returns (r: Result<Tx, SubmitError>, ghost slot: L.Slot?)
      requires nonceManager.Valid()
      modifies nonceManager, node
      ensures nonceManager.Valid() && (slot != null ==> slot.resolved && slot.calls != [])
      ensures Submitted(old(Now()), Now(), chainID, to, data, w, a, r,
                        if slot == null then [] else slot.calls)
    {
      var n, s := nonceManager.Acquire(w);
      slot := s;
      if n.Err? {
        return Err(AcquireFailed(n.error)), null;
      }
      if a.deployed == Some(true) {
        s.Reuse();
        return Err(AlreadyDeployed), s;
      }
      if a.gas.None? {
        s.Reuse();
        return Err(GasFailed), s;
      }
      if a.tip.None? {
        s.Reuse();
        return Err(TipFailed), s;
      }
      if a.head.None? {
        s.Reuse();
        return Err(HeadFailed), s;
      }
      var gasPrice := 0;
      if a.head.value.None? {
        if a.gasPrice.None? {
          s.Reuse();
          return Err(GasPriceFailed), s;
        }
        gasPrice := a.gasPrice.value;
      }
      var tx := BuildTx(chainID, to, data, n.value, a.gas.value, a.tip.value, a.head.value, gasPrice);
      if !a.signs {
        s.Reuse();
        return Err(SigningFailed), s;
      }
      var sent := node.SendTransaction(tx, a.outcome);
      if !sent {
        s.Reclaim();
        return Err(SendFailed), s;
      }
      s.Commit();
      return Ok(tx), s;
    }

    /**
     If the calldata or the address cannot be computed, nothing is acquired or broadcast;
     otherwise the deployment's calldata is submitted to its factory.
     */
    method Submit(d: Deployment, chainID: Key, isL2: bool, input: Input, w: World, a: Answers)
      returns (r: Result<Tx, SubmitError>, ghost slot: L.Slot?)
      requires nonceManager.Valid()
      modifies nonceManager, node
      ensures nonceManager.Valid() && (slot != null ==> slot.resolved && slot.calls != [])
      ensures !Computable(d, chainID, isL2, input) ==> slot == null && Now() == old(Now())
      ensures BuildCalldata(keccak, input, d, chainID, isL2).Err? ==>
                r == Err(CalldataFailed(BuildCalldata(keccak, input, d, chainID, isL2).error))
      ensures BuildCalldata(keccak, input, d, chainID, isL2).Ok? && PredictAddress(keccak, input, d, chainID, isL2).Err? ==>
                r == Err(NotPredicted(PredictAddress(keccak, input, d, chainID, isL2).error))
      ensures Computable(d, chainID, isL2, input) ==>
                && d.ProxyFactory(chainID).Ok?
                && Submitted(old(Now()), Now(), chainID, d.ProxyFactory(chainID).value.address,
                             BuildCalldata(keccak, input, d, chainID, isL2).value, w, a, r,
                             if slot == null then [] else slot.calls)
      ensures node.broadcasts != old(node.broadcasts) <==>
                && slot != null && a.deployed != Some(true)
                && a.gas.Some? && a.tip.Some? && a.head.Some?
                && (a.head.value.None? ==> a.gasPrice.Some?) && a.signs
      ensures slot != null && a.deployed == Some(true) ==> r == Err(AlreadyDeployed)
    {
      slot := null;
      var calldata := BuildCalldata(keccak, input, d, chainID, isL2);
      if calldata.Err? {
        return Err(CalldataFailed(calldata.error)), null;
      }
      var factory := d.ProxyFactory(chainID);
      if factory.Err? {
        assert false;  // the calldata could not have been built
      }
      var predicted := PredictAddress(keccak, input, d, chainID, isL2);
      if predicted.Err? {
        return Err(NotPredicted(predicted.error)), null;
      }
      ghost var v := Now();
      r, slot := SubmitCalldata(chainID, factory.value.address, calldata.value, w, a);
      BroadcastExactly(v, Now(), chainID, factory.value.address, calldata.value, w, a, r,
                       if slot == null then [] else slot.calls);
    }
  }

  // --------------------------------------------------------- sequences of Submits

  /** One Submit's circumstances; the source, when it answers, answers the account's pending nonce. */
  datatype Occasion = Occasion(endsWait: bool, endsDelay: bool, fetches: bool, a: Answers)

  function WorldOf(o: Occasion, account: A.State): World {
    World(o.endsWait, o.endsDelay,
          if o.fetches && account.pending < TWO_64 then Some(account.pending) else None)
  }

  function AfterAll(m: L.State, account: A.State, os: seq<Occasion>): (L.State, A.State)
    decreases |os|
  {
    if os == [] then (m, account)
    else
      var (m1, account1) := AfterAll(m, account, os[..|os| - 1]);
      var o := os[|os| - 1];
      var (m2, account2) := Effect(m1, account1, WorldOf(o, account1), o.a);
      (m2, account2)
  }

  /** Nobody holds the slot, and a clean counter is one behind the account. */
  predicate Sound(m: L.State, account: A.State, start: nat) {
    && m.free && A.GapFree(account, start)
    && (m.hasNonce && !m.dirty ==> Inc(m.nonce) == account.pending)
  }

  /** One Submit, whatever fails in it, broadcasts the pending nonce or nothing and leaves the manager sound. */
  lemma SubmitKeepsSound(m: L.State, account: A.State, start: nat, o: Occasion)
    requires Sound(m, account, start)
    ensures var (m', account') := Effect(m, account, WorldOf(o, account), o.a);
            Sound(m', account', start)
    ensures L.AcquireSpec(m, WorldOf(o, account)).1.Ok? ==>
              L.AcquireSpec(m, WorldOf(o, account)).1.value == account.pending
  {
    var w := WorldOf(o, account);
    var taken := L.AcquireSpec(m, w).1;
    if taken.Ok? && Prepared(o.a) {
      A.BroadcastPending(account, start, Effective(taken.value, o.a.outcome));
    }
  }

  /** After any sequence of Submits with arbitrary failures the manager is free and sound. */
  lemma {:induction false} SubmitsKeepSound(m: L.State, account: A.State, start: nat, os: seq<Occasion>)
    requires Sound(m, account, start)
    ensures Sound(AfterAll(m, account, os).0, AfterAll(m, account, os).1, start)
    decreases |os|
  {
    if os != [] {
      var front := os[..|os| - 1];
      SubmitsKeepSound(m, account, start, front);
      var (m1, account1) := AfterAll(m, account, front);
      SubmitKeepsSound(m1, account1, start, os[|os| - 1]);
    }
  }

  // ------------------------------------------ the step system behind one Submit

  /** A manager action Submit may take outside of resolving a slot. */
  predicate Plain(b: LP.Action, pending: nat) {
    !b.Resolve? && (b.Fetch? ==> b.n == pending)
  }

  predicate AllPlain(run: seq<LP.Action>, pending: nat) {
    forall i :: 0 <= i < |run| ==> Plain(run[i], pending)
  }

  function Lift(run: seq<LP.Action>): seq<SP.Action> {
    seq(|run|, i requires 0 <= i < |run| => SP.Manage(run[i]))
  }

  lemma {:induction false} LiftIsARun(s: SP.System, run: seq<LP.Action>)
    requires |s.phases| == |s.m.slots| && LP.Legal(s.m, run) && AllPlain(run, s.account.pending)
    ensures SP.Legal(s, Lift(run))
    ensures var s' := SP.Final(s, Lift(run));
            && s'.m == LP.Final(s.m, run) && s'.account == s.account
            && |s'.phases| == |s'.m.slots| && s.phases <= s'.phases
            && (forall i :: |s.phases| <= i < |s'.phases| ==> s'.phases[i].Preparing?)
    decreases |run|
  {
    if run != [] {
      var lifted := Lift(run);
      assert lifted[0] == SP.Manage(run[0]) && lifted[1..] == Lift(run[1..]);
      assert Plain(run[0], s.account.pending);
      var s1 := SP.Apply(s, lifted[0]);
      assert s.phases <= s1.phases && |s1.phases| <= |s.phases| + 1;
      LiftIsARun(s1, run[1..]);
    }
  }

  lemma {:induction false} RunConcat(s: SP.System, a: seq<SP.Action>, b: seq<SP.Action>)
    requires SP.Legal(s, a) && SP.Legal(SP.Final(s, a), b)
    ensures SP.Legal(s, a + b) && SP.Final(s, a + b) == SP.Final(SP.Final(s, a), b)
    decreases |a|
  {
    if a == [] {
      assert a + b == b;
    } else {
      assert (a + b)[1..] == a[1..] + b;
      RunConcat(SP.Apply(s, a[0]), a[1..], b);
    }
  }

  lemma RunCons(s: SP.System, a: SP.Action, rest: seq<SP.Action>)
    requires SP.Enabled(s, a) && SP.Legal(SP.Apply(s, a), rest)
    ensures SP.Legal(s, [a] + rest) && SP.Final(s, [a] + rest) == SP.Final(SP.Apply(s, a), rest)
  {
    assert ([a] + rest)[1..] == rest;
  }

  lemma AcquireRunIsPlain(m: LP.State, t: nat, w: World, pending: nat)
    requires w.answer.Some? ==> w.answer.value == pending
    ensures AllPlain(L.AcquireRun(m, t, w), pending)
  {
    var run := L.NextNonceRun(m, t, w);
    assert AllPlain(run, pending);
  }

  /** t resolves slot i: by Abort or Finish, then the manager's own steps. */
  function ResolutionRun(t: nat, i: nat, how: How): seq<SP.Action> {
    [if how.Reuse? then SP.Abort(t, i) else SP.Finish(t, i)] + Lift(L.ResolveRun(t, i, how)[1..])
  }

  /** What t does with its fresh slot i of nonce n: broadcast, unless there is an obstacle, and resolve. */
  function SlotRun(t: nat, i: nat, n: uint64, a: Answers): seq<SP.Action> {
    if !Prepared(a) then ResolutionRun(t, i, Reuse)
    else [SP.Send(i, Effective(n, a.outcome))] + ResolutionRun(t, i, Resolution(n, a))
  }

  /** The actions of one undisturbed Submit by goroutine t: Acquire, and then what its slot calls for. */
  function SubmitRun(m: LP.State, t: nat, w: World, a: Answers): seq<SP.Action> {
    var acquire := Lift(L.AcquireRun(m, t, w));
    match L.AcquireSpec(L.Abs(m), w).1
    case Err(_) => acquire
    case Ok(n) => acquire + SlotRun(t, |m.slots|, n, a)
  }

  lemma ResolutionIsARun(s: SP.System, t: nat, i: nat, how: How)
    requires |s.phases| == |s.m.slots| && i < |s.m.slots| && !s.m.slots[i].resolved
    requires s.m.tokens == 0 && !LP.At(s.m, t)
    requires match how
             case Reuse => s.phases[i].Preparing?
             case Commit => s.phases[i].SentOk?
             case Reclaim => s.phases[i].SentErr?
    ensures SP.Legal(s, ResolutionRun(t, i, how))
    ensures var s' := SP.Final(s, ResolutionRun(t, i, how));
            && L.Abs(s'.m) == L.ResolveSpec(L.Abs(s.m), how)
            && s'.m.threads == s.m.threads && s'.account == s.account
            && s'.m.slots == s.m.slots[i := s.m.slots[i].(resolved := true)]
            && s'.phases == s.phases[i := A.Resolved]
  {
    var x := if how.Reuse? then SP.Abort(t, i) else SP.Finish(t, i);
    var whole := L.ResolveRun(t, i, how);
    var rest := whole[1..];
    L.ResolveIsARun(s.m, t, i, how);
    assert whole[0] == LP.Resolve(t, i, how);
    assert AllPlain(rest, s.account.pending);
    LiftIsARun(SP.Apply(s, x), rest);
    RunCons(s, x, Lift(rest));
  }

  /** From a fresh slot i on: abort, or broadcast and finish. */
  lemma SlotIsARun(s: SP.System, t: nat, i: nat, a: Answers)
    requires |s.phases| == |s.m.slots| && s.m.tokens == 0 && !LP.At(s.m, t)
    requires i < |s.m.slots| && !s.m.slots[i].resolved && s.phases[i].Preparing?
    ensures SP.Legal(s, SlotRun(t, i, s.m.slots[i].nonce, a))
    ensures var n := s.m.slots[i].nonce;
            var s' := SP.Final(s, SlotRun(t, i, n, a));
            && L.Abs(s'.m) == L.ResolveSpec(L.Abs(s.m), Resolution(n, a))
            && s'.account == (if !Prepared(a) then s.account else A.Broadcast(s.account, n, Effective(n, a.outcome)))
            && s'.m.threads == s.m.threads
            && s'.m.slots == s.m.slots[i := s.m.slots[i].(resolved := true)]
            && s'.phases == s.phases[i := A.Resolved]
  {
    var n := s.m.slots[i].nonce;
    if !Prepared(a) {
      ResolutionIsARun(s, t, i, Reuse);
    } else {
      var send := SP.Send(i, Effective(n, a.outcome));
      assert SP.PhaseOf(s, i).Preparing?;
      var s1 := SP.Apply(s, send);
      ResolutionIsARun(s1, t, i, Resolution(n, a));
      RunCons(s, send, ResolutionRun(t, i, Resolution(n, a)));
    }
  }

  /** From s to s' there is one more slot, of the nonce taken, if one was taken. */
  predicate Gains(s: SP.System, s': SP.System, taken: Result<uint64, AcquireError>, resolved: bool, phase: A.Phase) {
    match taken
    case Ok(n) => s'.m.slots == s.m.slots + [LP.Slot(n, resolved)] && s'.phases == s.phases + [phase]
    case Err(_) => s'.m.slots == s.m.slots && s'.phases == s.phases
  }

  /** An acquired nonce leaves a fresh slot of it behind. */
  lemma AcquiredSlot(s: SP.System, t: nat, w: World)
    requires |s.phases| == |s.m.slots| && s.m.tokens <= 1 && !LP.At(s.m, t)
    requires w.answer.Some? ==> w.answer.value == s.account.pending
    ensures var run, out := Lift(L.AcquireRun(s.m, t, w)), L.AcquireSpec(L.Abs(s.m), w);
            && SP.Legal(s, run)
            && var s1 := SP.Final(s, run);
            && L.Abs(s1.m) == out.0 && s1.account == s.account && s1.m.threads == s.m.threads
            && Gains(s, s1, out.1, false, A.Preparing)
  {
    L.AcquireIsARun(s.m, t, w);
    AcquireRunIsPlain(s.m, t, w, s.account.pending);
    LiftIsARun(s, L.AcquireRun(s.m, t, w));
  }

  /** From the moment t has acquired n, after which s has become s1. */
  lemma FreshSlotIsARun(s: SP.System, s1: SP.System, t: nat, n: uint64, a: Answers)
    requires |s.phases| == |s.m.slots| && !LP.At(s.m, t)
    requires s1.m.tokens == 0 && s1.m.threads == s.m.threads && Gains(s, s1, Ok(n), false, A.Preparing)
    ensures SP.Legal(s1, SlotRun(t, |s.m.slots|, n, a))
    ensures var s' := SP.Final(s1, SlotRun(t, |s.m.slots|, n, a));
            && L.Abs(s'.m) == L.ResolveSpec(L.Abs(s1.m), Resolution(n, a))
            && s'.account == (if !Prepared(a) then s1.account else A.Broadcast(s1.account, n, Effective(n, a.outcome)))
            && s'.m.threads == s.m.threads && Gains(s, s', Ok(n), true, A.Resolved)
  {
    SlotIsARun(s1, t, |s.m.slots|, a);
  }

  /**
   One undisturbed Submit of goroutine t, at most one Send and one resolution of its own
   slot, is a run of the concurrent system with the specified effect, and leaves that slot
   resolved; so what holds in every interleaving of that system holds of the method's calls.
   */
  lemma SubmitIsARun(s: SP.System, t: nat, w: World, a: Answers)
    requires |s.phases| == |s.m.slots| && s.m.tokens <= 1 && !LP.At(s.m, t)
    requires w.answer.Some? ==> w.answer.value == s.account.pending
    ensures SP.Legal(s, SubmitRun(s.m, t, w, a))
    ensures var s' := SP.Final(s, SubmitRun(s.m, t, w, a));
            var (m, account) := Effect(L.Abs(s.m), s.account, w, a);
            && L.Abs(s'.m) == m && s'.account == account && s'.m.threads == s.m.threads
            && Gains(s, s', L.AcquireSpec(L.Abs(s.m), w).1, true, A.Resolved)
  {
    AcquiredSlot(s, t, w);
    var taken := L.AcquireSpec(L.Abs(s.m), w).1;
    if taken.Ok? {
      FreshSlotIsARun(s, SP.Final(s, Lift(L.AcquireRun(s.m, t, w))), t, taken.value, a);
      RunConcat(s, Lift(L.AcquireRun(s.m, t, w)), SlotRun(t, |s.m.slots|, taken.value, a));
    }
  }
}
