/**
 Any number of concurrent TxManager.Submit calls over one in-process nonce manager
 and one chain account.  Submit acquires a nonce, prepares a transaction (every
 preparation step may fail), broadcasts it once and resolves its slot.
 */
module SubmitProtocol {
  import opened Common
  import LP = LocalProtocol
  import A = Account

  datatype System = System(
    m: LP.State,
    phases: seq<A.Phase>,    // one per slot
    account: A.State)

  datatype Action =
    | Manage(a: LP.Action)                 // the manager's own steps
    | Abort(t: nat, i: nat)                // preparation failed: Reuse
    | Send(i: nat, outcome: A.Outcome)       // SendTransaction
    | Finish(t: nat, i: nat)               // Commit after success, Reclaim after an error

  function Initial(pending: nat): System {
    System(LP.Initial(), [], A.State(pending, []))
  }

  function PhaseOf(s: System, i: nat): A.Phase {
    if i < |s.phases| then s.phases[i] else A.Resolved
  }

  /** The manager step an action performs, if any. */
  function Underlying(s: System, a: Action): Option<LP.Action> {
    match a
    case Manage(b) => Some(b)
    case Abort(t, i) => Some(LP.Resolve(t, i, Reuse))
    case Send(_, _) => None
    case Finish(t, i) => Some(LP.Resolve(t, i, if PhaseOf(s, i).SentOk? then Commit else Reclaim))
  }

  predicate Enabled(s: System, a: Action) {
    && (var b := Underlying(s, a); b.Some? ==> LP.Enabled(s.m, b.value))
    && match a
       case Manage(b) => !b.Resolve? && (b.Fetch? ==> b.n == s.account.pending)
       case Abort(_, i) => PhaseOf(s, i).Preparing?
       case Send(i, outcome) =>
         && i < |s.m.slots| && PhaseOf(s, i).Preparing?
         && A.MayEnd(s.m.slots[i].nonce, outcome)
       case Finish(_, i) => PhaseOf(s, i).SentOk? || PhaseOf(s, i).SentErr?
  }

  function Apply(s: System, a: Action): System
    requires Enabled(s, a)
  {
    match a
    case Manage(b) =>
      var m := LP.Apply(s.m, b);
      s.(m := m, phases := if |m.slots| > |s.m.slots| then s.phases + [A.Preparing] else s.phases)
    case Abort(t, i) =>
      s.(m := LP.Apply(s.m, LP.Resolve(t, i, Reuse)), phases := s.phases[i := A.Resolved])
    case Send(i, outcome) =>
      s.(account := A.Broadcast(s.account, s.m.slots[i].nonce, outcome),
         phases := s.phases[i := if outcome.Accepted? then A.SentOk else A.SentErr])
    case Finish(t, i) =>
      s.(m := LP.Apply(s.m, Underlying(s, a).value), phases := s.phases[i := A.Resolved])
  }

  predicate Legal(s: System, run: seq<Action>)
    decreases |run|
  {
    run == [] || (Enabled(s, run[0]) && Legal(Apply(s, run[0]), run[1..]))
  }

  function Final(s: System, run: seq<Action>): System
    requires Legal(s, run)
    decreases |run|
  {
    if run == [] then s else Final(Apply(s, run[0]), run[1..])
  }

  // ----------------------------------------------------- projection on the manager

  function Project(s: System, run: seq<Action>): seq<LP.Action>
    requires Legal(s, run)
    decreases |run|
  {
    if run == [] then []
    else
      var rest := Project(Apply(s, run[0]), run[1..]);
      match Underlying(s, run[0])
      case Some(b) => [b] + rest
      case None => rest
  }

  /** Submits use the manager only through its own steps, so its theorems carry over. */
  lemma {:induction false} ProjectionIsARun(s: System, run: seq<Action>)
    requires Legal(s, run)
    ensures LP.Legal(s.m, Project(s, run))
    ensures LP.Final(s.m, Project(s, run)) == Final(s, run).m
    decreases |run|
  {
    if run != [] {
      ProjectionIsARun(Apply(s, run[0]), run[1..]);
      var b := Underlying(s, run[0]);
      if b.Some? {
        var p := Project(s, run);
        assert p[0] == b.value && p[1..] == Project(Apply(s, run[0]), run[1..]);
      }
    }
  }

  // ------------------------------------------------------------- chain agreement

  /** What the next clean Acquire would hand out is the pending nonce. */
  predicate InStep(s: System) {
    !s.m.dirty && s.m.hasNonce ==> Inc(s.m.nonce) == s.account.pending
  }

  predicate Agrees(s: System, h: LP.Holder)
    requires LP.Inv(s.m, h) && |s.phases| == |s.m.slots|
  {
    match h
    case Channel => InStep(s)
    case OpenSlot(i) =>
      (match s.phases[i]
       case Preparing => s.m.nonce == s.account.pending
       case SentOk => Inc(s.m.nonce) == s.account.pending
       case SentErr => true
       case Resolved => false)
    case Goroutine(t) =>
      (match s.m.threads[t]
       case StaleWait => true
       case StaleFetched(n) => n == s.account.pending
       case SeedWait => true
       case SeedFetched(n) => n == s.account.pending
       case Resolving(_, how) => how.Reuse? ==> s.m.nonce == s.account.pending
       case _ => InStep(s))
  }

  predicate Inv(s: System, h: LP.Holder, start: nat) {
    && LP.Inv(s.m, h)
    && |s.phases| == |s.m.slots|
    && (forall i :: 0 <= i < |s.phases| ==> (s.phases[i].Resolved? <==> s.m.slots[i].resolved))
    && Agrees(s, h)
    && A.GapFree(s.account, start)
  }

  function Handover(s: System, h: LP.Holder, a: Action): LP.Holder
    requires Enabled(s, a)
  {
    match Underlying(s, a)
    case Some(b) => LP.Handover(s.m, h, b)
    case None => h
  }

  lemma SendKeepsInv(s: System, h: LP.Holder, a: Action, start: nat)
    requires Inv(s, h, start) && Enabled(s, a) && a.Send?
    ensures Inv(Apply(s, a), h, start) && s.m.slots[a.i].nonce == s.account.pending
  {
    assert h == LP.OpenSlot(a.i);
    A.BroadcastPending(s.account, start, a.outcome);
  }

  lemma ResolutionKeepsInv(s: System, h: LP.Holder, a: Action, start: nat)
    requires Inv(s, h, start) && Enabled(s, a) && (a.Abort? || a.Finish?)
    ensures Inv(Apply(s, a), Handover(s, h, a), start)
  {
    LP.StepKeepsInv(s.m, h, Underlying(s, a).value);
    assert h == LP.OpenSlot(a.i);
  }

  lemma FetchAgrees(s: System, h: LP.Holder, a: Action, start: nat)
    requires Inv(s, h, start) && Enabled(s, a) && a.Manage?
    requires a.a.ReadFlags? || a.a.Fetch? || a.a.FetchFail? || a.a.Cancel?
    requires LP.Inv(Apply(s, a).m, Handover(s, h, a))
    ensures Agrees(Apply(s, a), Handover(s, h, a))
  {
  }

  lemma HandOutAgrees(s: System, h: LP.Holder, a: Action, start: nat)
    requires Inv(s, h, start) && Enabled(s, a) && a.Manage? && (a.a.Record? || a.a.Bump?)
    requires LP.Inv(Apply(s, a).m, Handover(s, h, a))
    ensures |Apply(s, a).phases| == |Apply(s, a).m.slots| && Agrees(Apply(s, a), Handover(s, h, a))
  {
  }

  lemma TokenAgrees(s: System, h: LP.Holder, a: Action, start: nat)
    requires Inv(s, h, start) && Enabled(s, a) && a.Manage?
    requires a.a.Call? || a.a.Take? || a.a.GiveBack? || a.a.Settle?
    requires LP.Inv(Apply(s, a).m, Handover(s, h, a))
    ensures Agrees(Apply(s, a), Handover(s, h, a))
  {
  }

  lemma PhasesFollowSlots(s: System, h: LP.Holder, a: Action, start: nat)
    requires Inv(s, h, start) && Enabled(s, a) && a.Manage?
    ensures var s' := Apply(s, a);
            && |s'.phases| == |s'.m.slots| && s'.account == s.account
            && (forall i :: 0 <= i < |s'.phases| ==> (s'.phases[i].Resolved? <==> s'.m.slots[i].resolved))
  {
  }

  lemma StepAgrees(s: System, h: LP.Holder, a: Action, start: nat)
    requires Inv(s, h, start) && Enabled(s, a) && a.Manage?
    requires LP.Inv(Apply(s, a).m, Handover(s, h, a)) && |Apply(s, a).phases| == |Apply(s, a).m.slots|
    ensures Agrees(Apply(s, a), Handover(s, h, a))
  {
    match a.a
    case Record(_) => HandOutAgrees(s, h, a, start);
    case Bump(_) => HandOutAgrees(s, h, a, start);
    case ReadFlags(_) => FetchAgrees(s, h, a, start);
    case Fetch(_, _) => FetchAgrees(s, h, a, start);
    case FetchFail(_) => FetchAgrees(s, h, a, start);
    case Cancel(_) => FetchAgrees(s, h, a, start);
    case _ => TokenAgrees(s, h, a, start);
  }

  lemma ManagerStepKeepsInv(s: System, h: LP.Holder, a: Action, start: nat)
    requires Inv(s, h, start) && Enabled(s, a) && a.Manage?
    ensures Inv(Apply(s, a), Handover(s, h, a), start)
  {
    LP.StepKeepsInv(s.m, h, a.a);
    PhasesFollowSlots(s, h, a, start);
    StepAgrees(s, h, a, start);
  }

  lemma StepKeepsInv(s: System, h: LP.Holder, a: Action, start: nat)
    requires Inv(s, h, start) && Enabled(s, a)
    ensures Inv(Apply(s, a), Handover(s, h, a), start)
    ensures a.Send? ==> s.m.slots[a.i].nonce == s.account.pending
  {
    match a
    case Send(_, _) => SendKeepsInv(s, h, a, start);
    case Manage(_) => ManagerStepKeepsInv(s, h, a, start);
    case _ => ResolutionKeepsInv(s, h, a, start);
  }

  /** Every broadcast of the run carries the account's pending nonce at that moment. */
  predicate SendsArePending(s: System, run: seq<Action>)
    requires Legal(s, run)
    decreases |run|
  {
    run != [] ==>
      && (run[0].Send? ==> s.m.slots[run[0].i].nonce == s.account.pending)
      && SendsArePending(Apply(s, run[0]), run[1..])
  }

  lemma {:induction false} RunKeepsInv(s: System, h: LP.Holder, run: seq<Action>, start: nat)
    returns (h': LP.Holder)
    requires Inv(s, h, start) && Legal(s, run)
    ensures Inv(Final(s, run), h', start) && SendsArePending(s, run)
    decreases |run|
  {
    if run == [] {
      h' := h;
    } else {
      StepKeepsInv(s, h, run[0], start);
      h' := RunKeepsInv(Apply(s, run[0]), Handover(s, h, run[0]), run[1..], start);
    }
  }

  /**
   In every interleaving of arbitrarily many Submits, with preparations that fail
   and broadcasts that succeed, are refused, or are accepted unseen, every
   broadcast carries the pending nonce and the accepted nonces are exactly
   start, start + 1, ..., pending - 1 in that order.
   */
  lemma EndToEndSafety(start: uint64, run: seq<Action>)
    requires Legal(Initial(start), run)
    ensures SendsArePending(Initial(start), run)
    ensures var s := Final(Initial(start), run);
            A.GapFree(s.account, start)
  {
    var _ := RunKeepsInv(Initial(start), LP.Channel, run, start);
  }

  /** When no Submit is under way, the token is back and the counter state is sound. */
  lemma QuiescentIsSound(start: uint64, run: seq<Action>)
    requires Legal(Initial(start), run)
    requires Final(Initial(start), run).m.threads == map[]
    requires forall p :: p in Final(Initial(start), run).phases ==> p.Resolved?
    ensures var s := Final(Initial(start), run); s.m.tokens == 1 && InStep(s)
  {
    var h := RunKeepsInv(Initial(start), LP.Channel, run, start);
  }
}
