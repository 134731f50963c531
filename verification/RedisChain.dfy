/**
 Submit over the Redis manager: every slot's owner broadcasts at most once and
 then resolves the slot as the contract asks.  When the counter then follows the
 account's pending nonce, and when it does not.
 */
module RedisChain {
  import opened Common
  import opened RedisProtocol
  import A = Account

  datatype System = System(
    r: State,
    phases: seq<A.Phase>,    // one per slot
    account: A.State)

  datatype Step =
    | Manage(a: Action)
    | Abort(t: nat, i: nat)
    | Send(i: nat, outcome: A.Outcome)
    | Finish(t: nat, i: nat)

  function Start(pending: nat): System {
    System(Initial(), [], A.State(pending, []))
  }

  function PhaseOf(s: System, i: nat): A.Phase {
    if i < |s.phases| then s.phases[i] else A.Resolved
  }

  function Underlying(s: System, x: Step): Option<Action> {
    match x
    case Manage(a) => Some(a)
    case Abort(t, i) => Some(Resolve(t, i, Reuse))
    case Send(_, _) => None
    case Finish(t, i) => Some(Resolve(t, i, if PhaseOf(s, i).SentOk? then Commit else Reclaim))
  }

  /**
   Nothing crashes; a command is applied exactly when it reports success; the DECR
   of a Reuse succeeds, which needs a counter in the range of int64.
   */
  predicate Healthy(r: State, a: Action) {
    match a
    case SetNX(_, reply) => !reply.Unseen?
    case Set(_, reply) => !reply.Unseen?
    case Release(_, reply) => !reply.Unseen?
    case Decr(_, reply) => reply.Done? && DecrWorks(r.counter)
    case Crash(_) => false
    case Abandon(_) => false
    case _ => true
  }

  predicate Can(s: System, x: Step) {
    && (var a := Underlying(s, x); a.Some? ==> Enabled(s.r, a.value))
    && match x
       case Manage(a) => !a.Resolve? && Healthy(s.r, a) && (a.Fetch? ==> a.n == s.account.pending)
       case Abort(_, i) => PhaseOf(s, i).Preparing?
       case Send(i, outcome) =>
         && i < |s.r.slots| && PhaseOf(s, i).Preparing?
         && A.MayEnd(s.r.slots[i].nonce, outcome)
       case Finish(_, i) => PhaseOf(s, i).SentOk? || PhaseOf(s, i).SentErr?
  }

  function Next(s: System, x: Step): System
    requires Can(s, x)
  {
    match x
    case Manage(a) =>
      var r := Apply(s.r, a);
      s.(r := r, phases := if |r.slots| > |s.r.slots| then s.phases + [A.Preparing] else s.phases)
    case Abort(t, i) =>
      s.(r := Apply(s.r, Resolve(t, i, Reuse)), phases := s.phases[i := A.Resolved])
    case Send(i, outcome) =>
      s.(account := A.Broadcast(s.account, s.r.slots[i].nonce, outcome),
         phases := s.phases[i := if outcome.Accepted? then A.SentOk else A.SentErr])
    case Finish(t, i) =>
      s.(r := Apply(s.r, Underlying(s, x).value), phases := s.phases[i := A.Resolved])
  }

  predicate Runs(s: System, run: seq<Step>)
    decreases |run|
  {
    run == [] || (Can(s, run[0]) && Runs(Next(s, run[0]), run[1..]))
  }

  function End(s: System, run: seq<Step>): System
    requires Runs(s, run)
    decreases |run|
  {
    if run == [] then s else End(Next(s, run[0]), run[1..])
  }

  // ------------------------------------------------------------- the hypothesis

  /**
   A goroutine that finds its own instance clean does so while no other instance is
   dirty.  This always holds with a single instance, and without Reclaim.
   */
  predicate Informed(s: System, x: Step) {
    x.Manage? && x.a.LoadDirty? && In(s.r, x.a.t) ==>
      s.r.dirty == {} || s.r.threads[x.a.t].inst in s.r.dirty
  }

  predicate AllInformed(s: System, run: seq<Step>)
    requires Runs(s, run)
    decreases |run|
  {
    run == [] || (Informed(s, run[0]) && AllInformed(Next(s, run[0]), run[1..]))
  }

  // ----------------------------------------------------------------- invariant

  /** The counter, if present, is `n` modulo 2^64. */
  predicate CounterAt(s: System, n: nat) {
    s.r.counter.Some? ==> s.r.counter.value % TWO_64 == n % TWO_64
  }

  function LastNonce(s: System): uint64
    requires |s.r.slots| > 0
  {
    s.r.slots[|s.r.slots| - 1].nonce
  }

  /** After a failed broadcast the counter is one past its nonce, and so may the account be. */
  predicate Unsettled(s: System) {
    && |s.r.slots| > 0 && s.r.counter == Some(Inc(LastNonce(s)))
    && (s.account.pending == LastNonce(s) || s.account.pending == LastNonce(s) + 1)
  }

  /** With nobody dirty, the next hand-out would be the pending nonce. */
  predicate InStep(s: System) {
    if s.r.dirty == {} then CounterAt(s, s.account.pending) else Unsettled(s) && AtMostOneDirty(s.r.dirty)
  }

  predicate OnlyDirty(dirty: set<nat>, inst: nat) {
    inst in dirty && AtMostOneDirty(dirty)
  }

  predicate AtMostOneDirty(dirty: set<nat>) {
    forall x, y :: x in dirty && y in dirty ==> x == y
  }

  predicate Agrees(s: System, h: Holder) {
    match h
    case Nobody => InStep(s)
    case OpenSlot(i) =>
      && i + 1 == |s.r.slots| == |s.phases| && s.r.dirty == {} && s.r.counter.Some?
      && (match s.phases[i]
          case Preparing => LastNonce(s) == s.account.pending && s.r.counter == Some(Inc(LastNonce(s)))
          case SentOk => CounterAt(s, s.account.pending)
          case SentErr => Unsettled(s)
          case Resolved => false)
    case Goroutine(t) =>
      In(s.r, t) &&
      match s.r.threads[t].pc
      case StaleWait => OnlyDirty(s.r.dirty, s.r.threads[t].inst) && Unsettled(s)
      case StaleFetched(n) => n == s.account.pending && OnlyDirty(s.r.dirty, s.r.threads[t].inst) && Unsettled(s)
      case StaleStored(n) =>
        && n == s.account.pending && OnlyDirty(s.r.dirty, s.r.threads[t].inst)
        && s.r.counter == Some(Inc(n))
      case Probing => s.r.dirty == {} && CounterAt(s, s.account.pending)
      case SeedWait => s.r.dirty == {} && s.r.counter.None?
      case SeedFetched(n) => n == s.account.pending && s.r.dirty == {} && s.r.counter.None?
      case Reading => s.r.dirty == {} && CounterAt(s, s.account.pending)
      case Bumping(n) => n == s.account.pending && s.r.dirty == {} && s.r.counter == Some(n)
      case Resolving(_, how) =>
        && s.r.dirty == {} && |s.r.slots| > 0
        && (if how.Reuse? then LastNonce(s) == s.account.pending && s.r.counter == Some(Inc(LastNonce(s)))
            else Unsettled(s))
      case _ => InStep(s)
  }

  predicate Inv(s: System, h: Holder, start: nat) {
    && OwnedBy(s.r, h)
    && |s.phases| == |s.r.slots|
    && (forall i :: 0 <= i < |s.phases| ==> (s.phases[i].Resolved? <==> !IsOpen(s.r, i)))
    && Agrees(s, h)
    && A.GapFree(s.account, start)
  }

  function HolderAfter(s: System, h: Holder, x: Step): Holder
    requires Can(s, x)
  {
    match Underlying(s, x)
    case Some(a) => Handover(s.r, h, a)
    case None => h
  }

  lemma SendKeepsInv(s: System, h: Holder, x: Step, start: nat)
    requires Inv(s, h, start) && Can(s, x) && x.Send?
    ensures Inv(Next(s, x), h, start) && s.r.slots[x.i].nonce == s.account.pending
  {
    assert h == OpenSlot(x.i);
    A.BroadcastPending(s.account, start, x.outcome);
  }

  lemma ResolutionKeepsInv(s: System, h: Holder, x: Step, start: nat)
    requires Inv(s, h, start) && Can(s, x) && (x.Abort? || x.Finish?)
    ensures Inv(Next(s, x), HolderAfter(s, h, x), start)
  {
    StepKeepsOwner(s.r, h, Underlying(s, x).value);
    assert h == OpenSlot(x.i);
  }

  lemma SetAgrees(s: System, h: Holder, x: Step, start: nat)
    requires Inv(s, h, start) && Can(s, x) && x.Manage? && x.a.Set?
    ensures Agrees(Next(s, x), HolderAfter(s, h, x))
  {
  }

  lemma DecrUndoesInc(n: uint64)
    ensures (Inc(n) - 1) % TWO_64 == n
  {
  }

  lemma DecrAgrees(s: System, h: Holder, x: Step, start: nat)
    requires Inv(s, h, start) && Can(s, x) && x.Manage? && x.a.Decr?
    ensures Agrees(Next(s, x), HolderAfter(s, h, x))
  {
    DecrUndoesInc(LastNonce(s));
  }

  lemma ReadAgrees(s: System, h: Holder, x: Step, start: nat)
    requires Inv(s, h, start) && Can(s, x) && x.Manage? && (x.a.Exists? || x.a.Get? || x.a.LoadDirty?)
    requires Informed(s, x)
    ensures Agrees(Next(s, x), HolderAfter(s, h, x))
  {
  }

  lemma FetchAgrees(s: System, h: Holder, x: Step, start: nat)
    requires Inv(s, h, start) && Can(s, x) && x.Manage? && (x.a.Fetch? || x.a.FetchFail? || x.a.Cancel?)
    ensures Agrees(Next(s, x), HolderAfter(s, h, x))
  {
  }

  lemma FlagAgrees(s: System, h: Holder, x: Step, start: nat)
    requires Inv(s, h, start) && Can(s, x) && x.Manage? && (x.a.ClearDirty? || x.a.MarkDirty?)
    ensures Agrees(Next(s, x), HolderAfter(s, h, x))
  {
  }

  lemma LockAgrees(s: System, h: Holder, x: Step, start: nat)
    requires Inv(s, h, start) && Can(s, x) && x.Manage? && (x.a.Call? || x.a.SetNX?)
    ensures Agrees(Next(s, x), HolderAfter(s, h, x))
  {
  }

  lemma UnlockAgrees(s: System, h: Holder, x: Step, start: nat)
    requires Inv(s, h, start) && Can(s, x) && x.Manage? && (x.a.Release? || x.a.Expire?)
    ensures Agrees(Next(s, x), HolderAfter(s, h, x))
  {
  }

  lemma StepAgrees(s: System, h: Holder, x: Step, start: nat)
    requires Inv(s, h, start) && Can(s, x) && x.Manage? && Informed(s, x)
    ensures Agrees(Next(s, x), HolderAfter(s, h, x))
  {
    match x.a
    case Set(_, _) => SetAgrees(s, h, x, start);
    case Decr(_, _) => DecrAgrees(s, h, x, start);
    case Exists(_, _) => ReadAgrees(s, h, x, start);
    case Get(_, _) => ReadAgrees(s, h, x, start);
    case LoadDirty(_) => ReadAgrees(s, h, x, start);
    case Fetch(_, _) => FetchAgrees(s, h, x, start);
    case FetchFail(_) => FetchAgrees(s, h, x, start);
    case Cancel(_) => FetchAgrees(s, h, x, start);
    case ClearDirty(_) => FlagAgrees(s, h, x, start);
    case MarkDirty(_) => FlagAgrees(s, h, x, start);
    case Call(_, _) => LockAgrees(s, h, x, start);
    case SetNX(_, _) => LockAgrees(s, h, x, start);
    case _ => UnlockAgrees(s, h, x, start);
  }

  lemma PhasesFollowSlots(s: System, h: Holder, x: Step, start: nat)
    requires Inv(s, h, start) && Can(s, x) && x.Manage?
    ensures var s' := Next(s, x);
            && |s'.phases| == |s'.r.slots|
            && (forall i :: 0 <= i < |s'.phases| ==> (s'.phases[i].Resolved? <==> !IsOpen(s'.r, i)))
  {
  }

  lemma ManagerStepKeepsInv(s: System, h: Holder, x: Step, start: nat)
    requires Inv(s, h, start) && Can(s, x) && x.Manage? && Informed(s, x)
    ensures Inv(Next(s, x), HolderAfter(s, h, x), start)
  {
    StepKeepsOwner(s.r, h, x.a);
    StepAgrees(s, h, x, start);
    PhasesFollowSlots(s, h, x, start);
  }

  lemma StepKeepsInv(s: System, h: Holder, x: Step, start: nat)
    requires Inv(s, h, start) && Can(s, x) && Informed(s, x)
    ensures Inv(Next(s, x), HolderAfter(s, h, x), start)
    ensures x.Send? ==> s.r.slots[x.i].nonce == s.account.pending
  {
    match x
    case Send(_, _) => SendKeepsInv(s, h, x, start);
    case Manage(_) => ManagerStepKeepsInv(s, h, x, start);
    case _ => ResolutionKeepsInv(s, h, x, start);
  }

  predicate SendsArePending(s: System, run: seq<Step>)
    requires Runs(s, run)
    decreases |run|
  {
    run != [] ==>
      && (run[0].Send? ==> s.r.slots[run[0].i].nonce == s.account.pending)
      && SendsArePending(Next(s, run[0]), run[1..])
  }

  lemma {:induction false} RunKeepsInv(s: System, h: Holder, run: seq<Step>, start: nat) returns (h': Holder)
    requires Inv(s, h, start) && Runs(s, run) && AllInformed(s, run)
    ensures Inv(End(s, run), h', start) && SendsArePending(s, run)
    decreases |run|
  {
    if run == [] {
      h' := h;
    } else {
      StepKeepsInv(s, h, run[0], start);
      h' := RunKeepsInv(Next(s, run[0]), HolderAfter(s, h, run[0]), run[1..], start);
    }
  }

  /**
   Chain agreement.  Whenever the lock is free, nobody is dirty and the counter is
   present, the counter is the pending nonce; every broadcast carries the pending
   nonce; and the accepted nonces are start, start + 1, ..., pending - 1 in order.
   */
  lemma ChainAgreement(start: uint64, run: seq<Step>)
    requires Runs(Start(start), run) && AllInformed(Start(start), run)
    ensures var s := End(Start(start), run);
            && (s.r.lock.None? && s.r.dirty == {} && s.r.counter.Some? ==>
                  s.r.counter.value % TWO_64 == s.account.pending)
            && SendsArePending(Start(start), run)
            && A.GapFree(s.account, start)
  {
    var _ := RunKeepsInv(Start(start), Nobody, run, start);
  }

  // --------------------------------------------- when everyone is surely informed

  /** Only instance `inst` takes part. */
  predicate OneInstance(run: seq<Step>, inst: nat) {
    forall x :: x in run && x.Manage? && x.a.Call? ==> x.a.inst == inst
  }

  predicate Only(s: System, inst: nat) {
    && s.r.dirty <= {inst}
    && (forall t :: t in s.r.threads ==> s.r.threads[t].inst == inst)
    && (forall i :: 0 <= i < |s.r.slots| ==> s.r.slots[i].inst == inst)
  }

  lemma OnlyStep(s: System, x: Step, inst: nat)
    requires Only(s, inst) && Can(s, x) && (x.Manage? && x.a.Call? ==> x.a.inst == inst)
    ensures Only(Next(s, x), inst) && Informed(s, x)
  {
  }

  lemma {:induction false} OneInstanceIsInformed(s: System, run: seq<Step>, inst: nat)
    requires Only(s, inst) && Runs(s, run) && OneInstance(run, inst)
    ensures AllInformed(s, run)
    decreases |run|
  {
    if run != [] {
      assert run[0] in run;
      OnlyStep(s, run[0], inst);
      assert forall x :: x in run[1..] ==> x in run;
      OneInstanceIsInformed(Next(s, run[0]), run[1..], inst);
    }
  }

  /** No broadcast fails, so no slot is reclaimed. */
  predicate NoFailedSend(run: seq<Step>) {
    forall x :: x in run && x.Send? ==> x.outcome.Accepted?
  }

  predicate Spotless(s: System) {
    && s.r.dirty == {}
    && (forall t :: t in s.r.threads && s.r.threads[t].pc.Resolving? ==> s.r.threads[t].pc.how.Reuse?)
    && (forall i :: 0 <= i < |s.phases| ==> !s.phases[i].SentErr?)
  }

  lemma SpotlessStep(s: System, x: Step)
    requires Spotless(s) && Can(s, x) && (x.Send? ==> x.outcome.Accepted?)
    ensures Spotless(Next(s, x)) && Informed(s, x)
  {
  }

  lemma {:induction false} NoFailedSendIsInformed(s: System, run: seq<Step>)
    requires Spotless(s) && Runs(s, run) && NoFailedSend(run)
    ensures AllInformed(s, run)
    decreases |run|
  {
    if run != [] {
      assert run[0] in run;
      SpotlessStep(s, run[0]);
      assert forall x :: x in run[1..] ==> x in run;
      NoFailedSendIsInformed(Next(s, run[0]), run[1..]);
    }
  }

  /**
   One instance with any number of goroutines, Reclaim included, and any number of
   instances without Reclaim: a free, clean, present counter is the pending nonce, and
   the account's nonces are used in order without gaps.
   */
  lemma AgreementWhereDocumented(start: uint64, run: seq<Step>, inst: nat)
    requires Runs(Start(start), run)
    requires OneInstance(run, inst) || NoFailedSend(run)
    ensures var s := End(Start(start), run);
            && (s.r.lock.None? && s.r.dirty == {} && s.r.counter.Some? ==>
                  s.r.counter.value % TWO_64 == s.account.pending)
            && SendsArePending(Start(start), run)
            && A.GapFree(s.account, start)
  {
    if OneInstance(run, inst) {
      OneInstanceIsInformed(Start(start), run, inst);
    } else {
      NoFailedSendIsInformed(Start(start), run);
    }
    ChainAgreement(start, run);
  }

  // ------------------------------------------------------- where it stops holding

  /** t's instance is clean while another instance has yet to refetch. */
  predicate Uninformed(s: System, t: nat) {
    && In(s.r, t) && s.r.threads[t].pc.Checking?
    && s.r.dirty != {} && s.r.threads[t].inst !in s.r.dirty
  }

  /** t goes on to read the counter and to take the nonce it finds there. */
  function TakeNonce(t: nat): seq<Step> {
    [Manage(LoadDirty(t)), Manage(Exists(t, true)), Manage(Get(t, true)), Manage(Set(t, Done))]
  }

  /** The states run passes through. */
  predicate Path(states: seq<System>, run: seq<Step>) {
    && |states| == |run| + 1
    && forall i :: 0 <= i < |run| ==> Can(states[i], run[i]) && states[i + 1] == Next(states[i], run[i])
  }

  lemma {:induction false} PathIsARun(states: seq<System>, run: seq<Step>)
    requires Path(states, run)
    ensures Runs(states[0], run) && End(states[0], run) == states[|run|]
    ensures (forall i :: 0 <= i < |run| ==> Informed(states[i], run[i])) ==> AllInformed(states[0], run)
    decreases |run|
  {
    if run != [] {
      PathIsARun(states[1..], run[1..]);
    }
  }

  lemma TakesWhatItFinds(s: System, t: nat, c: uint64)
    requires Uninformed(s, t) && s.r.counter == Some(c) && |s.phases| == |s.r.slots|
    ensures Runs(s, TakeNonce(t))
    ensures End(s, TakeNonce(t)).r.slots == s.r.slots + [Slot(s.r.threads[t].inst, c, Open)]
    ensures End(s, TakeNonce(t)).account == s.account
  {
    var s1 := Next(s, Manage(LoadDirty(t)));
    var s2 := Next(s1, Manage(Exists(t, true)));
    var s3 := Next(s2, Manage(Get(t, true)));
    var s4 := Next(s3, Manage(Set(t, Done)));
    PathIsARun([s, s1, s2, s3, s4], TakeNonce(t));
  }

  lemma UninformedIsUnsettled(start: uint64, run: seq<Step>, t: nat)
    requires Runs(Start(start), run) && AllInformed(Start(start), run)
    requires Uninformed(End(Start(start), run), t)
    ensures var s := End(Start(start), run); Unsettled(s) && |s.phases| == |s.r.slots| && s.account.pending < TWO_64
  {
    var h := RunKeepsInv(Start(start), Nobody, run, start);
    assert h == Goroutine(t);
  }

  /**
   The exact failure.  After a run that was informed throughout, a clean instance that
   acquires while another is dirty is given the nonce after the reclaimed one.  That is
   the pending nonce if and only if the node had accepted the failed broadcast.
   */
  lemma UninformedHandOut(start: uint64, run: seq<Step>, t: nat)
    requires Runs(Start(start), run) && AllInformed(Start(start), run)
    requires Uninformed(End(Start(start), run), t)
    ensures var s := End(Start(start), run);
            && |s.r.slots| > 0
            && Runs(s, TakeNonce(t))
            && var s' := End(s, TakeNonce(t));
            && |s'.r.slots| == |s.r.slots| + 1 && s'.account.pending == s.account.pending
            && LastNonce(s') == (LastNonce(s) + 1) % TWO_64
            && (LastNonce(s') == s.account.pending <==> s.account.pending != LastNonce(s))
  {
    var s := End(Start(start), run);
    UninformedIsUnsettled(start, run, t);
    TakesWhatItFinds(s, t, s.r.counter.value);
  }

  /** run leads from s to s' and is informed throughout. */
  predicate Reaches(s: System, run: seq<Step>, s': System) {
    Runs(s, run) && AllInformed(s, run) && End(s, run) == s'
  }

  lemma {:induction false} OneMore(s: System, run: seq<Step>, mid: System, x: Step)
    requires Reaches(s, run, mid) && Can(mid, x) && Informed(mid, x)
    ensures Reaches(s, run + [x], Next(mid, x))
    decreases |run|
  {
    if run == [] {
      assert run + [x] == [x];
      assert [x][1..] == [];
    } else {
      OneMore(Next(s, run[0]), run[1..], mid, x);
      assert (run + [x])[1..] == run[1..] + [x];
    }
  }

  /** Goroutine 1 of instance 1 seeds the counter and is handed nonce 0. */
  function Seeded(): System {
    System(State(Some(1), Some(1), {}, map[], [Slot(1, 0, Open)]), [A.Preparing], A.State(0, []))
  }

  /** Its broadcast was refused and it has reclaimed. */
  function Reclaimed(): System {
    System(State(None, Some(1), {1}, map[], [Slot(1, 0, Closed)]), [A.Resolved], A.State(0, []))
  }

  lemma SeedingRun() returns (run: seq<Step>)
    ensures Reaches(Start(0), run, Seeded())
  {
    var s0 := Start(0);
    run := [];
    OneMore(s0, run, s0, Manage(Call(1, 1)));
    run := run + [Manage(Call(1, 1))];
    var s1 := s0.(r := s0.r.(threads := map[1 := Thread(1, Polling)]));
    OneMore(s0, run, s1, Manage(SetNX(1, Done)));
    run := run + [Manage(SetNX(1, Done))];
    var s2 := s0.(r := s0.r.(lock := Some(1), threads := map[1 := Thread(1, Checking)]));
    OneMore(s0, run, s2, Manage(LoadDirty(1)));
    run := run + [Manage(LoadDirty(1))];
    var s3 := s2.(r := s2.r.(threads := map[1 := Thread(1, Probing)]));
    run := SeedingRest(s0, run, s3);
  }

  lemma SeedingRest(s0: System, before: seq<Step>, s3: System) returns (run: seq<Step>)
    requires s3 == System(State(Some(1), None, {}, map[1 := Thread(1, Probing)], []), [], A.State(0, []))
    requires Reaches(s0, before, s3)
    ensures Reaches(s0, run, Seeded())
  {
    OneMore(s0, before, s3, Manage(Exists(1, true)));
    run := before + [Manage(Exists(1, true))];
    var s4 := s3.(r := s3.r.(threads := map[1 := Thread(1, SeedWait)]));
    OneMore(s0, run, s4, Manage(Fetch(1, 0)));
    run := run + [Manage(Fetch(1, 0))];
    var s5 := s3.(r := s3.r.(threads := map[1 := Thread(1, SeedFetched(0))]));
    assert Next(s5, Manage(Set(1, Done))) == Seeded();
    OneMore(s0, run, s5, Manage(Set(1, Done)));
    run := run + [Manage(Set(1, Done))];
  }

  function Refused(pc: Pc): System {
    Seeded().(r := Seeded().r.(threads := map[1 := Thread(1, pc)], slots := [Slot(1, 0, Closed)]),
              phases := [A.Resolved])
  }

  lemma RefusingRun(s0: System, before: seq<Step>) returns (run: seq<Step>)
    requires Reaches(s0, before, Seeded())
    ensures Reaches(s0, run, Refused(Resolving(0, Reclaim)))
  {
    OneMore(s0, before, Seeded(), Send(0, A.Refused));
    run := before + [Send(0, A.Refused)];
    var s7 := Seeded().(phases := [A.SentErr]);
    assert Next(s7, Finish(1, 0)) == Refused(Resolving(0, Reclaim));
    OneMore(s0, run, s7, Finish(1, 0));
    run := run + [Finish(1, 0)];
  }

  lemma ReclaimingRun(s0: System, before: seq<Step>) returns (run: seq<Step>)
    requires Reaches(s0, before, Refused(Resolving(0, Reclaim)))
    ensures Reaches(s0, run, Reclaimed())
  {
    var s8 := Refused(Resolving(0, Reclaim));
    OneMore(s0, before, s8, Manage(MarkDirty(1)));
    run := before + [Manage(MarkDirty(1))];
    var s9 := Refused(Releasing(0)).(r := Refused(Releasing(0)).r.(dirty := {1}));
    assert Next(s8, Manage(MarkDirty(1))) == s9;
    assert Next(s9, Manage(Release(1, Done))) == Reclaimed();
    OneMore(s0, run, s9, Manage(Release(1, Done)));
    run := run + [Manage(Release(1, Done))];
  }

  /** Instance 2 has taken the lock instance 1 released. */
  function Taken(): System {
    Reclaimed().(r := Reclaimed().r.(lock := Some(2), threads := map[2 := Thread(2, Checking)]))
  }

  lemma TakingRun(s0: System, before: seq<Step>) returns (run: seq<Step>)
    requires Reaches(s0, before, Reclaimed())
    ensures Reaches(s0, run, Taken())
  {
    OneMore(s0, before, Reclaimed(), Manage(Call(2, 2)));
    run := before + [Manage(Call(2, 2))];
    var s11 := Reclaimed().(r := Reclaimed().r.(threads := map[2 := Thread(2, Polling)]));
    assert Next(s11, Manage(SetNX(2, Done))) == Taken();
    OneMore(s0, run, s11, Manage(SetNX(2, Done)));
    run := run + [Manage(SetNX(2, Done))];
  }

  /**
   The failure is reachable: instance 1 seeds nonce 0, its broadcast is refused and it
   reclaims; instance 2 is then handed nonce 1 while the account is still at 0.
   */
  lemma AgreementNeedsItsHypothesis() returns (run: seq<Step>, s: System)
    ensures Reaches(Start(0), run, s) && Uninformed(s, 2) && s.account.pending == 0
    ensures Runs(s, TakeNonce(2)) && |End(s, TakeNonce(2)).r.slots| == 2
    ensures LastNonce(End(s, TakeNonce(2))) == 1
  {
    run := SeedingRun();
    run := RefusingRun(Start(0), run);
    run := ReclaimingRun(Start(0), run);
    run := TakingRun(Start(0), run);
    s := Taken();
    TakesWhatItFinds(s, 2, 1);
  }
}
