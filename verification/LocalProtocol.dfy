/**
 The in-process nonce manager as a step system.  Any number of goroutines call
 Acquire, and Commit, Reuse or Reclaim on any slot, however old.  One action is
 one atomic access to shared state: a receive or send on inflightCh, one mutex
 section, one compare-and-swap, or one answer of the nonce source.
 */
module LocalProtocol {
  import opened Common

  /** Capacity of inflightCh. */
  const CAPACITY: nat := 1

  /** Where a goroutine stands.  A goroutine that is not in a call has no entry. */
  datatype Pc =
    | Waiting                          // Acquire: selecting on ctx.Done() and inflightCh
    | Holding                          // token received, flags not read yet
    | StaleWait                        // read dirty: delay, then PendingNonceAt
    | StaleFetched(n: uint64)          // fetched n, about to record it and clear dirty
    | SeedWait                         // read !dirty && !hasNonce: PendingNonceAt
    | SeedFetched(n: uint64)           // fetched n, about to record it
    | Bumping                          // read !dirty && hasNonce: about to increment
    | Failing                          // nextNonce failed, about to send the token back
    | Resolving(slot: nat, how: How)   // won the CAS of Reuse or Reclaim, about to lock mu
    | Returning(slot: nat)             // slot settled, about to send the token back

  datatype Slot = Slot(nonce: uint64, resolved: bool)

  datatype State = State(
    nonce: uint64,
    hasNonce: bool,
    dirty: bool,
    tokens: nat,
    threads: map<nat, Pc>,
    slots: seq<Slot>)

  datatype Action =
    | Call(t: nat)
    | Take(t: nat)
    | Cancel(t: nat)
    | ReadFlags(t: nat)
    | Fetch(t: nat, n: uint64)
    | FetchFail(t: nat)
    | Record(t: nat)
    | Bump(t: nat)
    | GiveBack(t: nat)
    | Resolve(t: nat, i: nat, how: How)
    | Settle(t: nat)

  function Initial(): State {
    State(0, false, false, 1, map[], [])
  }

  predicate At(s: State, t: nat) {
    t in s.threads
  }

  predicate Enabled(s: State, a: Action) {
    match a
    case Call(t) => !At(s, t)
    case Take(t) => At(s, t) && s.threads[t].Waiting? && s.tokens > 0
    case Cancel(t) => At(s, t) && (s.threads[t].Waiting? || s.threads[t].StaleWait?)
    case ReadFlags(t) => At(s, t) && s.threads[t].Holding?
    case Fetch(t, _) => At(s, t) && (s.threads[t].StaleWait? || s.threads[t].SeedWait?)
    case FetchFail(t) => At(s, t) && (s.threads[t].StaleWait? || s.threads[t].SeedWait?)
    case Record(t) => At(s, t) && (s.threads[t].StaleFetched? || s.threads[t].SeedFetched?)
    case Bump(t) => At(s, t) && s.threads[t].Bumping?
    case GiveBack(t) => WantsToSend(s, t) && s.tokens < CAPACITY
    case Resolve(t, i, _) => !At(s, t) && i < |s.slots|
    case Settle(t) => At(s, t) && s.threads[t].Resolving?
  }

  /** t is executing `inflightCh <- struct{}{}`. */
  predicate WantsToSend(s: State, t: nat) {
    At(s, t) && (s.threads[t].Failing? || s.threads[t].Returning?)
  }

  function Goto(s: State, t: nat, pc: Pc): State {
    s.(threads := s.threads[t := pc])
  }

  function Leave(s: State, t: nat): State {
    s.(threads := s.threads - {t})
  }

  /** Acquire returns nonce n with a fresh slot. */
  function HandOut(s: State, t: nat, n: uint64): State {
    Leave(s, t).(slots := s.slots + [Slot(n, false)])
  }

  function Apply(s: State, a: Action): State
    requires Enabled(s, a)
  {
    match a
    case Call(t) => Goto(s, t, Waiting)
    case Take(t) => Goto(s, t, Holding).(tokens := s.tokens - 1)
    case Cancel(t) => if s.threads[t].Waiting? then Leave(s, t) else Goto(s, t, Failing)
    case ReadFlags(t) =>
      Goto(s, t, if s.dirty then StaleWait else if !s.hasNonce then SeedWait else Bumping)
    case Fetch(t, n) =>
      Goto(s, t, if s.threads[t].StaleWait? then StaleFetched(n) else SeedFetched(n))
    case FetchFail(t) => Goto(s, t, Failing)
    case Record(t) =>
      var n := s.threads[t].n;
      var clean := if s.threads[t].StaleFetched? then false else s.dirty;
      HandOut(s, t, n).(nonce := n, hasNonce := true, dirty := clean)
    case Bump(t) => HandOut(s, t, Inc(s.nonce)).(nonce := Inc(s.nonce))
    case GiveBack(t) => Leave(s, t).(tokens := s.tokens + 1)
    case Resolve(t, i, how) =>
      if s.slots[i].resolved then s
      else
        Goto(s, t, if how.Commit? then Returning(i) else Resolving(i, how))
          .(slots := s.slots[i := s.slots[i].(resolved := true)])
    case Settle(t) =>
      var Resolving(i, how) := s.threads[t];
      var r := Goto(s, t, Returning(i));
      if how.Reuse? then (if s.hasNonce then r.(nonce := Dec(s.nonce)) else r)
      else r.(dirty := true)
  }

  /** A run is a list of actions, each enabled where it is taken. */
  predicate Legal(s: State, run: seq<Action>)
    decreases |run|
  {
    run == [] || (Enabled(s, run[0]) && Legal(Apply(s, run[0]), run[1..]))
  }

  function Final(s: State, run: seq<Action>): State
    requires Legal(s, run)
    decreases |run|
  {
    if run == [] then s else Final(Apply(s, run[0]), run[1..])
  }

  // ---------------------------------------------------------------- ownership

  /** Who has the one token: the channel, a goroutine in a call, or an open slot. */
  datatype Holder = Channel | Goroutine(t: nat) | OpenSlot(i: nat)

  predicate OwnedBy(s: State, h: Holder) {
    && s.tokens == (if h.Channel? then 1 else 0)
    && (h.Goroutine? ==> At(s, h.t))
    && (h.OpenSlot? ==> h.i < |s.slots|)
    && (forall t :: t in s.threads ==> (s.threads[t].Waiting? <==> h != Goroutine(t)))
    && (forall i :: 0 <= i < |s.slots| ==> (s.slots[i].resolved <==> h != OpenSlot(i)))
  }

  /** Where action a moves the token. */
  function Handover(s: State, h: Holder, a: Action): Holder
    requires Enabled(s, a)
  {
    match a
    case Take(t) => Goroutine(t)
    case Record(_) => OpenSlot(|s.slots|)
    case Bump(_) => OpenSlot(|s.slots|)
    case GiveBack(_) => Channel
    case Resolve(t, i, _) => if s.slots[i].resolved then h else Goroutine(t)
    case _ => h
  }

  /** The counter fields agree with what the token's holder has read or been given. */
  predicate Consistent(s: State, h: Holder) {
    match h
    case Channel => true
    case OpenSlot(i) => i < |s.slots| && s.hasNonce && !s.dirty && s.nonce == s.slots[i].nonce
    case Goroutine(t) =>
      At(s, t) &&
      match s.threads[t]
      case StaleWait => s.dirty
      case StaleFetched(_) => s.dirty
      case SeedWait => !s.dirty && !s.hasNonce
      case SeedFetched(_) => !s.dirty && !s.hasNonce
      case Bumping => !s.dirty && s.hasNonce
      case Resolving(i, how) =>
        i < |s.slots| && s.hasNonce && !s.dirty && s.nonce == s.slots[i].nonce && !how.Commit?
      case _ => true
  }

  predicate Inv(s: State, h: Holder) {
    OwnedBy(s, h) && Consistent(s, h)
  }

  lemma InitialInv()
    ensures Inv(Initial(), Channel)
  {
  }

  /** Every action of every goroutine keeps the invariant. */
  lemma StepKeepsInv(s: State, h: Holder, a: Action)
    requires Inv(s, h) && Enabled(s, a)
    ensures Inv(Apply(s, a), Handover(s, h, a))
  {
  }

  lemma {:induction false} RunKeepsInv(s: State, h: Holder, run: seq<Action>) returns (h': Holder)
    requires Inv(s, h) && Legal(s, run)
    ensures Inv(Final(s, run), h')
    decreases |run|
  {
    if run == [] {
      h' := h;
    } else {
      StepKeepsInv(s, h, run[0]);
      h' := RunKeepsInv(Apply(s, run[0]), Handover(s, h, run[0]), run[1..]);
    }
  }

  // ------------------------------------------------------- token conservation

  /** Goroutines in a call that own the token. */
  function Busy(s: State): set<nat> {
    set t | t in s.threads && !s.threads[t].Waiting?
  }

  function Unresolved(s: State): set<nat> {
    set i | 0 <= i < |s.slots| && !s.slots[i].resolved
  }

  /**
   In every reachable state the tokens in the channel, the calls in progress that
   have left the channel and the unresolved slots add up to exactly one, and a
   goroutine about to send finds room in the channel.
   */
  lemma TokenConservation(run: seq<Action>)
    requires Legal(Initial(), run)
    ensures var s := Final(Initial(), run);
            && s.tokens + |Busy(s)| + |Unresolved(s)| == 1
            && s.tokens <= CAPACITY
            && forall t :: WantsToSend(s, t) ==> Enabled(s, GiveBack(t))
  {
    InitialInv();
    var h := RunKeepsInv(Initial(), Channel, run);
    var s := Final(Initial(), run);
    assert Busy(s) == if h.Goroutine? then {h.t} else {};
    assert Unresolved(s) == if h.OpenSlot? then {h.i} else {};
  }

  // --------------------------------------------------------- dirty persistence

  /** Recording a refetched nonce is the only action that clears dirty. */
  predicate Refetches(s: State, a: Action) {
    a.Record? && At(s, a.t) && s.threads[a.t].StaleFetched?
  }

  predicate NoRefetch(s: State, run: seq<Action>)
    requires Legal(s, run)
    decreases |run|
  {
    run == [] || (!Refetches(s, run[0]) && NoRefetch(Apply(s, run[0]), run[1..]))
  }

  /**
   Once dirty, however many Acquires are cancelled or fail, the manager stays
   dirty and hands out nothing until a refetch has been recorded.
   */
  lemma {:induction false} DirtyPersists(s: State, h: Holder, run: seq<Action>)
    requires Inv(s, h) && s.dirty && Legal(s, run) && NoRefetch(s, run)
    ensures Final(s, run).dirty && |Final(s, run).slots| == |s.slots|
    decreases |run|
  {
    if run != [] {
      StepKeepsInv(s, h, run[0]);
      DirtyPersists(Apply(s, run[0]), Handover(s, h, run[0]), run[1..]);
    }
  }

  /** The same from the start: after any run that leaves the manager dirty. */
  lemma ReclaimForcesRefetch(before: seq<Action>, after: seq<Action>)
    requires Legal(Initial(), before) && Final(Initial(), before).dirty
    requires Legal(Final(Initial(), before), after) && NoRefetch(Final(Initial(), before), after)
    ensures var s, s' := Final(Initial(), before), Final(Final(Initial(), before), after);
            s'.dirty && |s'.slots| == |s.slots|
  {
    var h := RunKeepsInv(Initial(), Channel, before);
    DirtyPersists(Final(Initial(), before), h, after);
  }

  /** From a dirty state only recording a refetched nonce hands one out. */
  lemma DirtyHandsOutFetched(s: State, h: Holder, a: Action)
    requires Inv(s, h) && s.dirty && Enabled(s, a)
    requires |Apply(s, a).slots| > |s.slots|
    ensures Refetches(s, a) && !Apply(s, a).dirty
    ensures Apply(s, a).slots == s.slots + [Slot(s.threads[a.t].n, false)]
    ensures Apply(s, a).nonce == s.threads[a.t].n
  {
  }

  lemma {:induction false} SlotsGrow(s: State, run: seq<Action>)
    requires Legal(s, run)
    ensures |s.slots| <= |Final(s, run).slots|
    decreases |run|
  {
    if run != [] {
      SlotsGrow(Apply(s, run[0]), run[1..]);
    }
  }

  /** After run, which hands out nothing, `last` is the first action to hand out a nonce. */
  predicate FirstHandOut(s: State, run: seq<Action>, last: Action) {
    && Legal(s, run) && |Final(s, run).slots| == |s.slots|
    && Enabled(Final(s, run), last) && |Apply(Final(s, run), last).slots| > |s.slots|
  }

  /** The run fetches n for t, and t does nothing after that. */
  ghost predicate JustFetched(run: seq<Action>, t: nat, n: uint64) {
    exists i :: 0 <= i < |run| && run[i] == Fetch(t, n) && forall j :: i < j < |run| ==> run[j].t != t
  }

  ghost predicate FetchesKnown(s: State, past: seq<Action>) {
    forall t :: t in s.threads && s.threads[t].StaleFetched? ==> JustFetched(past, t, s.threads[t].n)
  }

  lemma StepKeepsFetchesKnown(s: State, past: seq<Action>, a: Action)
    requires FetchesKnown(s, past) && Enabled(s, a)
    ensures FetchesKnown(Apply(s, a), past + [a])
  {
    var s', now := Apply(s, a), past + [a];
    forall t | t in s'.threads && s'.threads[t].StaleFetched?
      ensures JustFetched(now, t, s'.threads[t].n)
    {
      if a.t == t {
        assert now[|past|] == Fetch(t, s'.threads[t].n);
      } else {
        var i :| 0 <= i < |past| && past[i] == Fetch(t, s.threads[t].n) && forall j :: i < j < |past| ==> past[j].t != t;
        assert now[i] == past[i];
      }
    }
  }

  lemma {:induction false} RunKeepsFetchesKnown(s: State, h: Holder, past: seq<Action>, run: seq<Action>)
    returns (h': Holder)
    requires Inv(s, h) && s.dirty && FetchesKnown(s, past)
    requires Legal(s, run) && |Final(s, run).slots| == |s.slots|
    ensures Inv(Final(s, run), h') && Final(s, run).dirty && FetchesKnown(Final(s, run), past + run)
    decreases |run|
  {
    if run == [] {
      h' := h;
      assert past + run == past;
    } else {
      var s1 := Apply(s, run[0]);
      SlotsGrow(s1, run[1..]);
      StepKeepsInv(s, h, run[0]);
      StepKeepsFetchesKnown(s, past, run[0]);
      h' := RunKeepsFetchesKnown(s1, Handover(s, h, run[0]), past + [run[0]], run[1..]);
      assert past + [run[0]] + run[1..] == past + run;
    }
  }

  /** u is about to settle a slot as `how`. */
  predicate Settles(s: State, u: nat, how: How) {
    At(s, u) && s.threads[u].Resolving? && s.threads[u].how == how
  }

  /**
   After a Reclaim, in every interleaving, the first nonce handed out is one that the
   goroutine that gets it has fetched since the Reclaim, and it is recorded.
   */
  lemma ReclaimIsRefetched(before: seq<Action>, u: nat, after: seq<Action>, last: Action)
    requires Legal(Initial(), before) && Settles(Final(Initial(), before), u, Reclaim)
    requires FirstHandOut(Apply(Final(Initial(), before), Settle(u)), after, last)
    ensures var s := Final(Apply(Final(Initial(), before), Settle(u)), after);
            var s' := Apply(s, last);
            && |s'.slots| == |s.slots| + 1
            && var n := s'.slots[|s.slots|].nonce;
            && JustFetched(after, last.t, n)
            && s'.nonce == n && s'.hasNonce && !s'.dirty
  {
    var s0 := Final(Initial(), before);
    var s1 := Apply(s0, Settle(u));
    var h := RunKeepsInv(Initial(), Channel, before);
    StepKeepsInv(s0, h, Settle(u));
    var h' := RunKeepsFetchesKnown(s1, h, [], after);
    assert [] + after == after;
    DirtyHandsOutFetched(Final(s1, after), h', last);
  }

  // ------------------------------------------------------------------- reusing

  /** n is the next nonce, whoever gets it: the counter stands before it and nothing is outstanding. */
  predicate Next(s: State, h: Holder, n: uint64) {
    && Inv(s, h) && s.hasNonce && !s.dirty && Inc(s.nonce) == n
    && match h
       case Channel => true
       case OpenSlot(_) => false
       case Goroutine(t) => !s.threads[t].Resolving?
  }

  lemma StepKeepsNext(s: State, h: Holder, n: uint64, a: Action)
    requires Next(s, h, n) && Enabled(s, a)
    ensures if |Apply(s, a).slots| == |s.slots| then Next(Apply(s, a), Handover(s, h, a), n)
            else Apply(s, a).slots == s.slots + [Slot(n, false)]
  {
    StepKeepsInv(s, h, a);
  }

  lemma {:induction false} RunKeepsNext(s: State, h: Holder, n: uint64, run: seq<Action>) returns (h': Holder)
    requires Next(s, h, n) && Legal(s, run) && |Final(s, run).slots| == |s.slots|
    ensures Next(Final(s, run), h', n)
    decreases |run|
  {
    if run == [] {
      h' := h;
    } else {
      SlotsGrow(Apply(s, run[0]), run[1..]);
      StepKeepsNext(s, h, n, run[0]);
      h' := RunKeepsNext(Apply(s, run[0]), Handover(s, h, run[0]), n, run[1..]);
    }
  }

  /**
   After a Reuse, in every interleaving, the first nonce handed out is the reused one,
   zero included, whichever goroutine gets it.
   */
  lemma ReusedIsNext(before: seq<Action>, u: nat, after: seq<Action>, last: Action)
    requires Legal(Initial(), before) && Settles(Final(Initial(), before), u, Reuse)
    requires FirstHandOut(Apply(Final(Initial(), before), Settle(u)), after, last)
    ensures var s0 := Final(Initial(), before);
            var s := Final(Apply(s0, Settle(u)), after);
            && s0.threads[u].slot < |s0.slots|
            && Apply(s, last).slots == s.slots + [Slot(s0.slots[s0.threads[u].slot].nonce, false)]
  {
    var s0 := Final(Initial(), before);
    var s1 := Apply(s0, Settle(u));
    var h := RunKeepsInv(Initial(), Channel, before);
    StepKeepsInv(s0, h, Settle(u));
    var n := s0.slots[s0.threads[u].slot].nonce;
    assert Inc(Dec(n)) == n;
    var h' := RunKeepsNext(s1, h, n, after);
    StepKeepsNext(Final(s1, after), h', n, last);
  }

  // ------------------------------------------------------ first resolution wins

  /** A Commit, Reuse or Reclaim call that loses the compare-and-swap. */
  predicate Loses(s: State, a: Action) {
    a.Resolve? && a.i < |s.slots| && s.slots[a.i].resolved
  }

  /** The run without the calls that lose their compare-and-swap. */
  function WinnersOnly(s: State, run: seq<Action>): seq<Action>
    requires Legal(s, run)
    decreases |run|
  {
    if run == [] then []
    else if Loses(s, run[0]) then WinnersOnly(s, run[1..])
    else [run[0]] + WinnersOnly(Apply(s, run[0]), run[1..])
  }

  function Resolutions(run: seq<Action>, i: nat): nat {
    if run == [] then 0
    else (if run[0].Resolve? && run[0].i == i then 1 else 0) + Resolutions(run[1..], i)
  }

  /**
   Repeated, concurrent or late resolutions change nothing: dropping the losing
   calls leaves a legal run that ends in the same state and resolves each slot at
   most once, and not at all where it was resolved before.
   */
  lemma {:induction false} FirstResolutionWins(s: State, run: seq<Action>)
    requires Legal(s, run)
    ensures var kept := WinnersOnly(s, run);
            && Legal(s, kept)
            && Final(s, kept) == Final(s, run)
            && forall i: nat :: Resolutions(kept, i) <= (if i < |s.slots| && s.slots[i].resolved then 0 else 1)
    decreases |run|
  {
    if run != [] {
      var a, rest := run[0], run[1..];
      var s' := Apply(s, a);
      FirstResolutionWins(s', rest);
      var kept := WinnersOnly(s, run);
      if !Loses(s, a) {
        assert kept[0] == a && kept[1..] == WinnersOnly(s', rest);
        forall i: nat
          ensures Resolutions(kept, i) <= (if i < |s.slots| && s.slots[i].resolved then 0 else 1)
        {
          assert Resolutions(kept, i) ==
                 (if a.Resolve? && a.i == i then 1 else 0) + Resolutions(WinnersOnly(s', rest), i);
        }
      }
    }
  }
}
