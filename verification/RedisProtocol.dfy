/**
 The Redis-backed nonce manager as a step system.  Any number of processes
 (instances), each with any number of goroutines, share one lock key and one
 counter key.  One action is one Redis command, one script run, one access to an
 instance's dirty flag, one compare-and-swap or one answer of the nonce source.
 Goroutines and slot owners may crash between any two actions.
 */
module RedisProtocol {
  import opened Common

  /** How a Redis command ends: as reported, applied but reported as an error, or not applied. */
  datatype Reply = Done | Unseen | NotDone

  datatype Pc =
    | Polling                          // acquireLock: about to SETNX
    | Checking                         // holds the lock, about to load dirty
    | StaleWait                        // dirty: delay, then PendingNonceAt
    | StaleFetched(n: uint64)          // about to SET n + 1
    | StaleStored(n: uint64)           // about to store dirty = false
    | Probing                          // about to EXISTS
    | SeedWait                         // no counter: PendingNonceAt
    | SeedFetched(n: uint64)           // about to SET n + 1
    | Reading                          // about to GET
    | Bumping(n: uint64)               // parsed n, about to SET n + 1
    | Failing                          // nextNonce failed, about to release the lock
    | Resolving(slot: nat, how: How)   // won the CAS; Reuse: about to DECR, Reclaim: about to set dirty
    | Releasing(slot: nat)             // about to release the lock

  datatype Thread = Thread(inst: nat, pc: Pc)

  datatype Status = Open | Closed | Abandoned

  datatype Slot = Slot(inst: nat, nonce: uint64, status: Status)

  datatype State = State(
    lock: Option<nat>,             // the lock key: an instance id
    counter: Option<int>,          // the counter key, a decimal number
    dirty: set<nat>,               // instances whose dirty flag is set
    threads: map<nat, Thread>,
    slots: seq<Slot>)

  datatype Action =
    | Call(t: nat, inst: nat)
    | SetNX(t: nat, reply: Reply)
    | Cancel(t: nat)
    | LoadDirty(t: nat)
    | Fetch(t: nat, n: uint64)
    | FetchFail(t: nat)
    | Set(t: nat, reply: Reply)
    | ClearDirty(t: nat)
    | Exists(t: nat, ok: bool)
    | Get(t: nat, ok: bool)
    | Release(t: nat, reply: Reply)
    | Resolve(t: nat, i: nat, how: How)
    | Decr(t: nat, reply: Reply)
    | MarkDirty(t: nat)
    | Crash(t: nat)
    | Abandon(i: nat)
    | Expire

  function Initial(): State {
    State(None, None, {}, map[], [])
  }

  predicate In(s: State, t: nat) {
    t in s.threads
  }

  /** Between a successful SETNX and the end of the release. */
  predicate Critical(s: State, t: nat) {
    In(s, t) && !s.threads[t].pc.Polling?
  }

  predicate IsOpen(s: State, i: nat) {
    i < |s.slots| && s.slots[i].status.Open?
  }

  /** The TTL only ever removes a lock that no live goroutine or slot relies on. */
  predicate NoLiveHolder(s: State) {
    && (forall t :: t in s.threads ==> !Critical(s, t))
    && (forall i :: 0 <= i < |s.slots| ==> !IsOpen(s, i))
  }

  predicate Enabled(s: State, a: Action) {
    match a
    case Call(t, _) => !In(s, t)
    case SetNX(t, _) => In(s, t) && s.threads[t].pc.Polling?
    case Cancel(t) => In(s, t) && (s.threads[t].pc.Polling? || s.threads[t].pc.StaleWait?)
    case LoadDirty(t) => In(s, t) && s.threads[t].pc.Checking?
    case Fetch(t, _) => In(s, t) && (s.threads[t].pc.StaleWait? || s.threads[t].pc.SeedWait?)
    case FetchFail(t) => In(s, t) && (s.threads[t].pc.StaleWait? || s.threads[t].pc.SeedWait?)
    case Set(t, _) =>
      In(s, t) &&
      (s.threads[t].pc.StaleFetched? || s.threads[t].pc.SeedFetched? || s.threads[t].pc.Bumping?)
    case ClearDirty(t) => In(s, t) && s.threads[t].pc.StaleStored?
    case Exists(t, _) => In(s, t) && s.threads[t].pc.Probing?
    case Get(t, _) => In(s, t) && s.threads[t].pc.Reading?
    case Release(t, _) => In(s, t) && (s.threads[t].pc.Failing? || s.threads[t].pc.Releasing?)
    case Resolve(t, i, _) => !In(s, t) && i < |s.slots| && !s.slots[i].status.Abandoned?
    case Decr(t, _) => In(s, t) && s.threads[t].pc.Resolving? && s.threads[t].pc.how.Reuse?
    case MarkDirty(t) => In(s, t) && s.threads[t].pc.Resolving? && s.threads[t].pc.how.Reclaim?
    case Crash(t) => In(s, t)
    case Abandon(i) => IsOpen(s, i)
    case Expire => s.lock.Some? && NoLiveHolder(s)
  }

  // ------------------------------------------------------------ single commands

  /** The release script: delete the lock key if it holds id; the reply is 1 or 0. */
  function ReleaseScript(lock: Option<nat>, id: nat): (Option<nat>, int) {
    if lock == Some(id) then (None, 1) else (lock, 0)
  }

  /** Another instance's lock, however it came to be there, is left alone. */
  lemma ReleaseSparesOthers(lock: Option<nat>, id: nat)
    ensures lock != Some(id) ==> ReleaseScript(lock, id) == (lock, 0)
    ensures lock == Some(id) ==> ReleaseScript(lock, id) == (None, 1)
  {
  }

  /** strconv.ParseUint accepts the counter. */
  predicate Parses(c: int) {
    0 <= c < TWO_64
  }

  /** DECR works on a missing key (as 0) and on values above the least int64. */
  predicate DecrWorks(counter: Option<int>) {
    counter.None? || -MAX_INT64 <= counter.value <= MAX_INT64
  }

  function DecrValue(counter: Option<int>): Option<int> {
    if counter.None? then Some(-1) else Some(counter.value - 1)
  }

  // --------------------------------------------------------------------- steps

  function Goto(s: State, t: nat, pc: Pc): State
    requires In(s, t)
  {
    s.(threads := s.threads[t := s.threads[t].(pc := pc)])
  }

  function Leave(s: State, t: nat): State {
    s.(threads := s.threads - {t})
  }

  /** Acquire returns nonce n with a fresh slot of t's instance. */
  function HandOut(s: State, t: nat, n: uint64): State
    requires In(s, t)
  {
    Leave(s, t).(slots := s.slots + [Slot(s.threads[t].inst, n, Open)])
  }

  function ApplySet(s: State, t: nat, reply: Reply): State
    requires Enabled(s, Set(t, reply))
  {
    var pc := s.threads[t].pc;
    var r := if reply.NotDone? then s else s.(counter := Some(Inc(pc.n)));
    if !reply.Done? then Goto(r, t, Failing)
    else if pc.StaleFetched? then Goto(r, t, StaleStored(pc.n))
    else HandOut(r, t, pc.n)
  }

  function ApplyResolve(s: State, t: nat, i: nat, how: How): State
    requires Enabled(s, Resolve(t, i, how))
  {
    if !IsOpen(s, i) then s
    else
      var pc := if how.Commit? then Releasing(i) else Resolving(i, how);
      s.(threads := s.threads[t := Thread(s.slots[i].inst, pc)],
         slots := s.slots[i := s.slots[i].(status := Closed)])
  }

  function Apply(s: State, a: Action): State
    requires Enabled(s, a)
  {
    match a
    case Call(t, inst) => s.(threads := s.threads[t := Thread(inst, Polling)])
    case SetNX(t, reply) =>
      var taken := if s.lock.None? then s.(lock := Some(s.threads[t].inst)) else s;
      (match reply
       case Done => if s.lock.None? then Goto(taken, t, Checking) else s
       case Unseen => Leave(taken, t)
       case NotDone => Leave(s, t))
    case Cancel(t) => if s.threads[t].pc.Polling? then Leave(s, t) else Goto(s, t, Failing)
    case LoadDirty(t) => Goto(s, t, if s.threads[t].inst in s.dirty then StaleWait else Probing)
    case Fetch(t, n) =>
      Goto(s, t, if s.threads[t].pc.StaleWait? then StaleFetched(n) else SeedFetched(n))
    case FetchFail(t) => Goto(s, t, Failing)
    case Set(t, reply) => ApplySet(s, t, reply)
    case ClearDirty(t) =>
      HandOut(s, t, s.threads[t].pc.n).(dirty := s.dirty - {s.threads[t].inst})
    case Exists(t, ok) =>
      Goto(s, t, if !ok then Failing else if s.counter.None? then SeedWait else Reading)
    case Get(t, ok) =>
      Goto(s, t, if ok && s.counter.Some? && Parses(s.counter.value)
                 then Bumping(s.counter.value) else Failing)
    case Release(t, reply) =>
      var lock := if reply.NotDone? then s.lock else ReleaseScript(s.lock, s.threads[t].inst).0;
      Leave(s, t).(lock := lock)
    case Resolve(t, i, how) => ApplyResolve(s, t, i, how)
    case Decr(t, reply) =>
      var r := Goto(s, t, Releasing(s.threads[t].pc.slot));
      if DecrApplies(s, reply) then r.(counter := DecrValue(s.counter)) else r
    case MarkDirty(t) =>
      Goto(s, t, Releasing(s.threads[t].pc.slot)).(dirty := s.dirty + {s.threads[t].inst})
    case Crash(t) => Leave(s, t)
    case Abandon(i) => s.(slots := s.slots[i := s.slots[i].(status := Abandoned)])
    case Expire => s.(lock := None)
  }

  predicate DecrApplies(s: State, reply: Reply) {
    !reply.NotDone? && DecrWorks(s.counter)
  }

  predicate Legal(s: State, run: seq<Action>)
    decreases |run|
  {
    run == [] || (Enabled(s, run[0]) && Legal(Apply(s, run[0]), run[1..]))
  }

  function Final(s: State, run: seq<Action>): State
    requires Legal(s, run)
    decreases |run|
  {
    if run == [] then s else Final(Apply(s, run[0]), run[1..])
  }

  // ---------------------------------------------------------- mutual exclusion

  /** Who may rely on the lock: nobody, a goroutine in a call, or an open slot. */
  datatype Holder = Nobody | Goroutine(t: nat) | OpenSlot(i: nat)

  function InstOf(s: State, h: Holder): Option<nat> {
    match h
    case Nobody => None
    case Goroutine(t) => if In(s, t) then Some(s.threads[t].inst) else None
    case OpenSlot(i) => if i < |s.slots| then Some(s.slots[i].inst) else None
  }

  predicate OwnedBy(s: State, h: Holder) {
    && (forall t :: t in s.threads ==> (Critical(s, t) <==> h == Goroutine(t)))
    && (forall i :: 0 <= i < |s.slots| ==> (IsOpen(s, i) <==> h == OpenSlot(i)))
    && (!h.Nobody? ==> InstOf(s, h).Some? && s.lock == InstOf(s, h))
    && (h.Goroutine? && SlotOf(s, h.t).Some? ==>
          SlotOf(s, h.t).value < |s.slots| && s.slots[SlotOf(s, h.t).value].inst == s.threads[h.t].inst)
  }

  /** The slot a goroutine is resolving. */
  function SlotOf(s: State, t: nat): Option<nat> {
    if In(s, t) && (s.threads[t].pc.Resolving? || s.threads[t].pc.Releasing?)
    then Some(s.threads[t].pc.slot) else None
  }

  function Handover(s: State, h: Holder, a: Action): Holder
    requires Enabled(s, a)
  {
    match a
    case SetNX(t, reply) => if reply.Done? && s.lock.None? then Goroutine(t) else h
    case Set(t, reply) =>
      if reply.Done? && !s.threads[t].pc.StaleFetched? then OpenSlot(|s.slots|) else h
    case ClearDirty(_) => OpenSlot(|s.slots|)
    case Release(_, _) => Nobody
    case Resolve(t, i, _) => if IsOpen(s, i) then Goroutine(t) else h
    case Crash(t) => if h == Goroutine(t) then Nobody else h
    case Abandon(i) => if h == OpenSlot(i) then Nobody else h
    case _ => h
  }

  lemma HandOutKeepsOwner(s: State, h: Holder, a: Action)
    requires OwnedBy(s, h) && Enabled(s, a) && (a.Set? || a.ClearDirty?)
    ensures OwnedBy(Apply(s, a), Handover(s, h, a))
  {
  }

  lemma ResolutionKeepsOwner(s: State, h: Holder, a: Action)
    requires OwnedBy(s, h) && Enabled(s, a) && (a.Resolve? || a.Decr? || a.MarkDirty?)
    ensures OwnedBy(Apply(s, a), Handover(s, h, a))
  {
  }

  lemma LockStepKeepsOwner(s: State, h: Holder, a: Action)
    requires OwnedBy(s, h) && Enabled(s, a)
    requires a.SetNX? || a.Release? || a.Crash? || a.Abandon? || a.Expire?
    ensures OwnedBy(Apply(s, a), Handover(s, h, a))
  {
  }

  lemma MoveKeepsOwner(s: State, h: Holder, a: Action)
    requires OwnedBy(s, h) && Enabled(s, a)
    requires a.Call? || a.Cancel? || a.LoadDirty? || a.Fetch? || a.FetchFail? || a.Exists? || a.Get?
    ensures OwnedBy(Apply(s, a), Handover(s, h, a))
  {
  }

  /** Every action of every goroutine, every crash and every expiry keeps single ownership. */
  lemma StepKeepsOwner(s: State, h: Holder, a: Action)
    requires OwnedBy(s, h) && Enabled(s, a)
    ensures OwnedBy(Apply(s, a), Handover(s, h, a))
  {
    if a.Set? || a.ClearDirty? {
      HandOutKeepsOwner(s, h, a);
    } else if a.Resolve? || a.Decr? || a.MarkDirty? {
      ResolutionKeepsOwner(s, h, a);
    } else if a.SetNX? || a.Release? || a.Crash? || a.Abandon? || a.Expire? {
      LockStepKeepsOwner(s, h, a);
    } else {
      MoveKeepsOwner(s, h, a);
    }
  }

  lemma {:induction false} RunKeepsOwner(s: State, h: Holder, run: seq<Action>) returns (h': Holder)
    requires OwnedBy(s, h) && Legal(s, run)
    ensures OwnedBy(Final(s, run), h')
    decreases |run|
  {
    if run == [] {
      h' := h;
    } else {
      StepKeepsOwner(s, h, run[0]);
      h' := RunKeepsOwner(Apply(s, run[0]), Handover(s, h, run[0]), run[1..]);
    }
  }

  /**
   In every run, with Reclaim, crashes, ambiguous commands, post-crash expiry and
   goroutines sharing an instance id: at most one live goroutine or open slot relies
   on the lock; the lock then holds its instance id; and a goroutine that is about
   to release finds its own instance's lock, so the script answers 1.
   */
  lemma MutualExclusion(run: seq<Action>)
    requires Legal(Initial(), run)
    ensures var s := Final(Initial(), run);
            && (forall t: nat, u: nat :: Critical(s, t) && Critical(s, u) ==> t == u)
            && (forall i: nat, j: nat :: IsOpen(s, i) && IsOpen(s, j) ==> i == j)
            && (forall t: nat, i: nat :: !(Critical(s, t) && IsOpen(s, i)))
            && (forall t: nat :: Critical(s, t) ==>
                  s.lock == Some(s.threads[t].inst) && ReleaseScript(s.lock, s.threads[t].inst) == (None, 1))
            && (forall i: nat :: IsOpen(s, i) ==> s.lock == Some(s.slots[i].inst))
  {
    var _ := RunKeepsOwner(Initial(), Nobody, run);
  }

  /**
   The lock key changes only by the goroutine it belongs to: it is set by a SETNX on
   a free key, and deleted by a release of the instance it names or by expiry when
   nothing alive relies on it.
   */
  lemma LockChangesOnlyByItsOwner(run: seq<Action>, a: Action)
    requires Legal(Initial(), run) && Enabled(Final(Initial(), run), a)
    requires Apply(Final(Initial(), run), a).lock != Final(Initial(), run).lock
    ensures var s := Final(Initial(), run);
            || (a.SetNX? && s.lock.None?)
            || (a.Release? && s.lock == Some(s.threads[a.t].inst) && forall i: nat :: !IsOpen(s, i))
            || (a.Expire? && NoLiveHolder(s))
  {
    var _ := RunKeepsOwner(Initial(), Nobody, run);
  }
}
