/** What a Reclaim means for the instance that made it, in every interleaving of all instances. */
module RedisDirty {
  import opened Common
  import opened RedisProtocol

  /** Past the dirty check, on the way to a nonce taken from the counter. */
  predicate TookCleanPath(pc: Pc) {
    pc.Probing? || pc.SeedWait? || pc.SeedFetched? || pc.Reading? || pc.Bumping?
  }

  /** While inst is dirty, nothing of inst that owns the lock bypasses the refetch. */
  predicate Respects(s: State, h: Holder, inst: nat) {
    inst in s.dirty && InstOf(s, h) == Some(inst) ==>
      match h
      case Nobody => true
      case OpenSlot(_) => false
      case Goroutine(t) => !TookCleanPath(s.threads[t].pc) && !s.threads[t].pc.Resolving?
  }

  lemma StepRespects(s: State, h: Holder, a: Action, inst: nat)
    requires OwnedBy(s, h) && Respects(s, h, inst) && Enabled(s, a)
    ensures Respects(Apply(s, a), Handover(s, h, a), inst)
  {
  }

  /** The only action that clears inst's flag. */
  predicate Clears(s: State, a: Action, inst: nat) {
    a.ClearDirty? && In(s, a.t) && s.threads[a.t].inst == inst
  }

  predicate NeverClears(s: State, run: seq<Action>, inst: nat)
    requires Legal(s, run)
    decreases |run|
  {
    run == [] || (!Clears(s, run[0], inst) && NeverClears(Apply(s, run[0]), run[1..], inst))
  }

  /** One action of a run that does not clear the flag: inst stays dirty and is handed nothing. */
  lemma StepKeepsDirty(s: State, h: Holder, a: Action, inst: nat)
    requires OwnedBy(s, h) && Respects(s, h, inst) && inst in s.dirty
    requires Enabled(s, a) && !Clears(s, a, inst)
    ensures var s' := Apply(s, a);
            && inst in s'.dirty && |s.slots| <= |s'.slots|
            && (forall i :: 0 <= i < |s.slots| ==> s'.slots[i].inst == s.slots[i].inst)
            && (forall i :: |s.slots| <= i < |s'.slots| ==> s'.slots[i].inst != inst)
  {
  }

  /**
   Once an instance is dirty, through any number of cancelled, failed or crashed Acquires
   of its own and any activity of others, it stays dirty and no nonce is handed to it
   until one of its goroutines clears the flag.
   */
  lemma {:induction false} DirtyPersists(s: State, h: Holder, run: seq<Action>, inst: nat)
    requires OwnedBy(s, h) && Respects(s, h, inst) && inst in s.dirty
    requires Legal(s, run) && NeverClears(s, run, inst)
    ensures var s' := Final(s, run);
            && inst in s'.dirty && |s.slots| <= |s'.slots|
            && (forall i :: 0 <= i < |s.slots| ==> s'.slots[i].inst == s.slots[i].inst)
            && (forall i :: |s.slots| <= i < |s'.slots| ==> s'.slots[i].inst != inst)
    decreases |run|
  {
    if run != [] {
      var s1, h1 := Apply(s, run[0]), Handover(s, h, run[0]);
      StepKeepsOwner(s, h, run[0]);
      StepRespects(s, h, run[0], inst);
      StepKeepsDirty(s, h, run[0], inst);
      DirtyPersists(s1, h1, run[1..], inst);
    }
  }

  lemma {:induction false} RunRespects(s: State, h: Holder, run: seq<Action>, inst: nat) returns (h': Holder)
    requires OwnedBy(s, h) && Respects(s, h, inst) && Legal(s, run)
    ensures OwnedBy(Final(s, run), h') && Respects(Final(s, run), h', inst)
    decreases |run|
  {
    if run == [] {
      h' := h;
    } else {
      StepKeepsOwner(s, h, run[0]);
      StepRespects(s, h, run[0], inst);
      h' := RunRespects(Apply(s, run[0]), Handover(s, h, run[0]), run[1..], inst);
    }
  }

  /** The same from the start: after any run, a dirty instance is handed nothing before its flag is cleared. */
  lemma ReclaimForcesRefetch(before: seq<Action>, after: seq<Action>, inst: nat)
    requires Legal(Initial(), before) && inst in Final(Initial(), before).dirty
    requires Legal(Final(Initial(), before), after) && NeverClears(Final(Initial(), before), after, inst)
    ensures var s, s' := Final(Initial(), before), Final(Final(Initial(), before), after);
            && inst in s'.dirty && |s.slots| <= |s'.slots|
            && (forall i :: |s.slots| <= i < |s'.slots| ==> s'.slots[i].inst != inst)
  {
    var h := RunRespects(Initial(), Nobody, before, inst);
    DirtyPersists(Final(Initial(), before), h, after, inst);
  }

  /** Clearing the flag hands out the nonce that has been stored. */
  lemma ClearingHandsOutStored(s: State, h: Holder, a: Action, inst: nat)
    requires OwnedBy(s, h) && Enabled(s, a) && Clears(s, a, inst)
    ensures s.threads[a.t].pc.StaleStored?
    ensures Apply(s, a).slots == s.slots + [Slot(inst, s.threads[a.t].pc.n, Open)]
    ensures inst !in Apply(s, a).dirty && h == Goroutine(a.t)
  {
  }

  // ---------------------------------------------------------------- refetching

  /** a is an action of goroutine t. */
  predicate By(a: Action, t: nat) {
    !a.Abandon? && !a.Expire? && a.t == t
  }

  /** Goroutine t does nothing in run after position i, and before j. */
  predicate QuietBetween(run: seq<Action>, t: nat, i: int, j: int) {
    forall k :: i < k < j && 0 <= k < |run| ==> !By(run[k], t)
  }

  /** The run fetches n for t, and t does nothing after that. */
  ghost predicate JustFetched(run: seq<Action>, t: nat, n: uint64) {
    exists i :: 0 <= i < |run| && run[i] == Fetch(t, n) && QuietBetween(run, t, i, |run|)
  }

  /** The run fetches n for t, t's next action is to store its successor, and t does nothing after that. */
  ghost predicate JustStored(run: seq<Action>, t: nat, n: uint64) {
    exists i, j :: 0 <= i < j < |run| && run[i] == Fetch(t, n) && run[j] == Set(t, Done)
                && QuietBetween(run, t, i, j) && QuietBetween(run, t, j, |run|)
  }

  /** What a goroutine on the way to a refetched nonce has done in past. */
  ghost predicate RefetchKnown(s: State, past: seq<Action>, t: nat) {
    In(s, t) ==>
      match s.threads[t].pc
      case StaleFetched(n) => JustFetched(past, t, n)
      case StaleStored(n) => JustStored(past, t, n) && s.counter == Some(Inc(n))
      case _ => true
  }

  ghost predicate RefetchesKnown(s: State, past: seq<Action>) {
    forall t :: t in s.threads ==> RefetchKnown(s, past, t)
  }

  lemma QuietSoFar(past: seq<Action>, a: Action, t: nat)
    requires !By(a, t)
    ensures forall n :: JustFetched(past, t, n) ==> JustFetched(past + [a], t, n)
    ensures forall n :: JustStored(past, t, n) ==> JustStored(past + [a], t, n)
  {
    var now := past + [a];
    forall n | JustFetched(past, t, n)
      ensures JustFetched(now, t, n)
    {
      var i :| 0 <= i < |past| && past[i] == Fetch(t, n) && QuietBetween(past, t, i, |past|);
      assert now[i] == Fetch(t, n) && QuietBetween(now, t, i, |now|);
    }
    forall n | JustStored(past, t, n)
      ensures JustStored(now, t, n)
    {
      var i, j :| 0 <= i < j < |past| && past[i] == Fetch(t, n) && past[j] == Set(t, Done)
               && QuietBetween(past, t, i, j) && QuietBetween(past, t, j, |past|);
      assert now[i] == Fetch(t, n) && now[j] == Set(t, Done);
      assert QuietBetween(now, t, i, j) && QuietBetween(now, t, j, |now|);
    }
  }

  /** The steps that bring a goroutine closer to a refetched nonce are noted. */
  lemma OwnStepIsKnown(s: State, h: Holder, past: seq<Action>, a: Action, t: nat)
    requires OwnedBy(s, h) && Enabled(s, a) && By(a, t) && RefetchKnown(s, past, t)
    ensures RefetchKnown(Apply(s, a), past + [a], t)
  {
    var now := past + [a];
    if a.Fetch? {
      assert now[|past|] == Fetch(t, a.n) && QuietBetween(now, t, |past|, |now|);
    } else if a.Set? && a.reply.Done? && s.threads[t].pc.StaleFetched? {
      var n := s.threads[t].pc.n;
      var i :| 0 <= i < |past| && past[i] == Fetch(t, n) && QuietBetween(past, t, i, |past|);
      assert now[i] == Fetch(t, n) && now[|past|] == Set(t, Done);
      assert QuietBetween(now, t, i, |past|) && QuietBetween(now, t, |past|, |now|);
    }
  }

  /** Nobody touches the counter between the store and the hand-out. */
  lemma OthersStepIsKnown(s: State, h: Holder, past: seq<Action>, a: Action, t: nat)
    requires OwnedBy(s, h) && Enabled(s, a) && !By(a, t) && RefetchKnown(s, past, t)
    ensures RefetchKnown(Apply(s, a), past + [a], t)
  {
    QuietSoFar(past, a, t);
  }

  lemma StepKeepsRefetchesKnown(s: State, h: Holder, past: seq<Action>, a: Action)
    requires OwnedBy(s, h) && RefetchesKnown(s, past) && Enabled(s, a)
    ensures RefetchesKnown(Apply(s, a), past + [a])
  {
    forall t | t in Apply(s, a).threads
      ensures RefetchKnown(Apply(s, a), past + [a], t)
    {
      if By(a, t) {
        OwnStepIsKnown(s, h, past, a, t);
      } else {
        OthersStepIsKnown(s, h, past, a, t);
      }
    }
  }

  /** Of the slots from `from` on, none is inst's. */
  predicate NoneOf(s: State, inst: nat, from: nat) {
    forall i :: from <= i < |s.slots| ==> s.slots[i].inst != inst
  }

  lemma KeepingBackIsNotClearing(s: State, h: Holder, a: Action, inst: nat)
    requires OwnedBy(s, h) && Enabled(s, a) && NoneOf(Apply(s, a), inst, |s.slots|)
    ensures !Clears(s, a, inst)
  {
    var slots := Apply(s, a).slots;
    assert a.ClearDirty? ==> slots[|slots| - 1].inst == s.threads[a.t].inst;
  }

  lemma {:induction false} SlotsStay(s: State, run: seq<Action>)
    requires Legal(s, run)
    ensures |s.slots| <= |Final(s, run).slots|
    ensures forall i :: 0 <= i < |s.slots| ==> Final(s, run).slots[i].inst == s.slots[i].inst
    decreases |run|
  {
    if run != [] {
      SlotsStay(Apply(s, run[0]), run[1..]);
    }
  }

  /** After run, which hands nothing to inst, `last` is the first action to hand it a nonce. */
  predicate FirstHandOut(s: State, run: seq<Action>, last: Action, inst: nat) {
    && Legal(s, run) && NoneOf(Final(s, run), inst, |s.slots|)
    && Enabled(Final(s, run), last) && !NoneOf(Apply(Final(s, run), last), inst, |s.slots|)
  }

  lemma {:induction false} RunKeepsRefetchesKnown(s: State, h: Holder, past: seq<Action>, run: seq<Action>, inst: nat)
    returns (h': Holder)
    requires OwnedBy(s, h) && Respects(s, h, inst) && inst in s.dirty && RefetchesKnown(s, past)
    requires Legal(s, run) && NoneOf(Final(s, run), inst, |s.slots|)
    ensures var s' := Final(s, run);
            OwnedBy(s', h') && Respects(s', h', inst) && inst in s'.dirty && RefetchesKnown(s', past + run)
    decreases |run|
  {
    if run == [] {
      h' := h;
      assert past + run == past;
    } else {
      var a := run[0];
      var s1 := Apply(s, a);
      SlotsStay(s1, run[1..]);
      assert NoneOf(s1, inst, |s.slots|);
      KeepingBackIsNotClearing(s, h, a, inst);
      StepKeepsOwner(s, h, a);
      StepRespects(s, h, a, inst);
      StepKeepsDirty(s, h, a, inst);
      StepKeepsRefetchesKnown(s, h, past, a);
      h' := RunKeepsRefetchesKnown(s1, Handover(s, h, a), past + [a], run[1..], inst);
      assert past + [a] + run[1..] == past + run;
    }
  }

  /** u of instance inst is about to mark it dirty. */
  predicate Reclaims(s: State, u: nat, inst: nat) {
    In(s, u) && s.threads[u].inst == inst && s.threads[u].pc.Resolving? && s.threads[u].pc.how.Reclaim?
  }

  /**
   After a Reclaim, in every interleaving of all instances, with crashes and failing
   commands, the first nonce handed to the reclaiming instance is one that the goroutine
   that gets it has fetched since the Reclaim, and stored: the counter is its successor.
   */
  lemma ReclaimIsRefetched(before: seq<Action>, u: nat, inst: nat, after: seq<Action>, last: Action)
    requires Legal(Initial(), before) && Reclaims(Final(Initial(), before), u, inst)
    requires FirstHandOut(Apply(Final(Initial(), before), MarkDirty(u)), after, last, inst)
    ensures var s := Final(Apply(Final(Initial(), before), MarkDirty(u)), after);
            var s' := Apply(s, last);
            && last.ClearDirty? && |s'.slots| == |s.slots| + 1 && s'.slots[|s.slots|].inst == inst
            && var n := s'.slots[|s.slots|].nonce;
            && JustStored(after, last.t, n)
            && s'.counter == Some(Inc(n)) && inst !in s'.dirty
  {
    var s0 := Final(Initial(), before);
    var s1 := Apply(s0, MarkDirty(u));
    var h := RunRespects(Initial(), Nobody, before, inst);
    StepKeepsOwner(s0, h, MarkDirty(u));
    StepRespects(s0, h, MarkDirty(u), inst);
    var h' := RunKeepsRefetchesKnown(s1, Handover(s0, h, MarkDirty(u)), [], after, inst);
    assert [] + after == after;
    var s := Final(s1, after);
    SlotsStay(s1, after);
    if Clears(s, last, inst) {
      ClearingHandsOutStored(s, h', last, inst);
    } else {
      StepKeepsDirty(s, h', last, inst);
    }
    assert RefetchKnown(s, after, last.t);
  }
}
