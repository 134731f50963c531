/**
 Where every nonce of the shared counter went, in runs without Reclaim: to a
 Commit, to the one slot still outstanding, or to a crash or a failed command.
 */
module RedisLedger {
  import opened Common
  import opened RedisProtocol

  datatype Books = Books(s: State, committed: seq<nat>, lost: seq<nat>)

  /** The nonces that action a settles. */
  function Committing(s: State, a: Action): seq<nat>
    requires Enabled(s, a)
  {
    if a.Resolve? && a.how.Commit? && IsOpen(s, a.i) then [s.slots[a.i].nonce] else []
  }

  function Losing(s: State, a: Action): seq<nat>
    requires Enabled(s, a)
  {
    match a
    case Set(t, reply) => if reply.Unseen? then [s.threads[t].pc.n] else []
    case Decr(t, reply) => if DecrApplies(s, reply) then [] else Pending(s, Goroutine(t))
    case Crash(t) => Pending(s, Goroutine(t))
    case Abandon(i) => [s.slots[i].nonce]
    case _ => []
  }

  /** The nonce that is handed out but not settled: an open slot's, or one whose Reuse has not reached DECR. */
  function Pending(s: State, h: Holder): seq<nat> {
    match h
    case Nobody => []
    case OpenSlot(i) => if IsOpen(s, i) then [s.slots[i].nonce] else []
    case Goroutine(t) =>
      if In(s, t) && s.threads[t].pc.Resolving? && s.threads[t].pc.how.Reuse? && s.threads[t].pc.slot < |s.slots|
      then [s.slots[s.threads[t].pc.slot].nonce] else []
  }

  function Step(b: Books, a: Action): Books
    requires Enabled(b.s, a)
  {
    Books(Apply(b.s, a), b.committed + Committing(b.s, a), b.lost + Losing(b.s, a))
  }

  function Replay(b: Books, run: seq<Action>): Books
    requires Legal(b.s, run)
    decreases |run|
  {
    if run == [] then b else Replay(Step(b, run[0]), run[1..])
  }

  lemma {:induction false} ReplayEndsAtFinal(b: Books, run: seq<Action>)
    requires Legal(b.s, run)
    ensures Replay(b, run).s == Final(b.s, run)
    decreases |run|
  {
    if run != [] {
      ReplayEndsAtFinal(Step(b, run[0]), run[1..]);
    }
  }

  // -------------------------------------------------------------- counter range

  /** seed, seed + 1, ..., seed + k - 1 on uint64, each counted once. */
  function Span(seed: uint64, k: nat): multiset<nat> {
    if k == 0 then multiset{} else Span(seed, k - 1) + multiset{Nth(seed, k - 1)}
  }

  function Nth(seed: uint64, j: nat): uint64 {
    (seed + j) % TWO_64
  }

  /** Equal modulo 2^64: a DECR of a wrapped 0 leaves -1 in Redis. */
  predicate Congruent(a: int, b: int) {
    a % TWO_64 == b % TWO_64
  }

  lemma CongruentStep(c: int, n: int)
    requires Congruent(c, n)
    ensures Congruent(c + 1, n + 1) && Congruent(c - 1, n - 1)
  {
    var q := (c - n) / TWO_64;
    assert c == c % TWO_64 + (c / TWO_64) * TWO_64;
    assert n == n % TWO_64 + (n / TWO_64) * TWO_64;
    ModShift(n + 1, c / TWO_64 - n / TWO_64);
    ModShift(n - 1, c / TWO_64 - n / TWO_64);
  }

  lemma ModShift(n: int, q: int)
    ensures (n + q * TWO_64) % TWO_64 == n % TWO_64
  {
  }

  // ----------------------------------------------------------------- invariant

  predicate NoReclaim(run: seq<Action>) {
    forall a :: a in run ==> Allowed(a)
  }

  predicate Allowed(a: Action) {
    a.Resolve? ==> !a.how.Reclaim?
  }

  /** The holder's place in the protocol agrees with the counter; last is the newest counted nonce. */
  predicate OnTrack(s: State, h: Holder, last: Option<uint64>) {
    && s.dirty == {}
    && match h
       case Nobody => true
       case OpenSlot(i) => i < |s.slots| && last == Some(s.slots[i].nonce)
       case Goroutine(t) =>
         In(s, t) &&
         match s.threads[t].pc
         case SeedWait => s.counter.None?
         case SeedFetched(_) => s.counter.None?
         case Reading => s.counter.Some?
         case Bumping(n) => s.counter == Some(n)
         case Resolving(i, how) => i < |s.slots| && how.Reuse? && last == Some(s.slots[i].nonce)
         case StaleWait => false
         case StaleFetched(_) => false
         case StaleStored(_) => false
         case _ => true
  }

  predicate Counts(s: State, seed: uint64, k: nat) {
    match s.counter
    case None => k == 0
    case Some(c) => Congruent(c, seed + k)
  }

  function Last(seed: uint64, k: nat): Option<uint64> {
    if k == 0 then None else Some(Nth(seed, k - 1))
  }

  predicate Inv(b: Books, h: Holder, seed: uint64, k: nat) {
    && OwnedBy(b.s, h)
    && OnTrack(b.s, h, Last(seed, k))
    && Counts(b.s, seed, k)
    && Span(seed, k) == multiset(b.committed) + multiset(b.lost) + multiset(Pending(b.s, h))
  }

  // ---------------------------------------------------------------- single steps

  /** The nonce a SET adds to the counted range, and the one a DECR takes off again. */
  function Issued(s: State, a: Action): seq<nat>
    requires Enabled(s, a)
  {
    if a.Set? && !a.reply.NotDone? then [s.threads[a.t].pc.n] else []
  }

  function Returned(s: State, a: Action): seq<nat>
    requires Enabled(s, a)
  {
    if a.Decr? && DecrApplies(s, a.reply) then Pending(s, Goroutine(a.t)) else []
  }

  lemma OnTrackSet(s: State, h: Holder, a: Action, last: Option<uint64>, last': Option<uint64>)
    requires OwnedBy(s, h) && OnTrack(s, h, last) && Enabled(s, a) && Allowed(a)
    requires Issued(s, a) != [] ==> last' == Some(s.threads[a.t].pc.n)
    requires Issued(s, a) == [] && !a.Decr? ==> last' == last
    requires a.Set?
    ensures OnTrack(Apply(s, a), Handover(s, h, a), last')
  {
  }

  lemma OnTrackResolution(s: State, h: Holder, a: Action, last: Option<uint64>, last': Option<uint64>)
    requires OwnedBy(s, h) && OnTrack(s, h, last) && Enabled(s, a) && Allowed(a)
    requires Issued(s, a) != [] ==> last' == Some(s.threads[a.t].pc.n)
    requires Issued(s, a) == [] && !a.Decr? ==> last' == last
    requires a.Resolve? || a.Decr? || a.MarkDirty? || a.Release?
    ensures OnTrack(Apply(s, a), Handover(s, h, a), last')
  {
  }

  lemma OnTrackOther(s: State, h: Holder, a: Action, last: Option<uint64>, last': Option<uint64>)
    requires OwnedBy(s, h) && OnTrack(s, h, last) && Enabled(s, a) && Allowed(a)
    requires Issued(s, a) != [] ==> last' == Some(s.threads[a.t].pc.n)
    requires Issued(s, a) == [] && !a.Decr? ==> last' == last
    requires !a.Set? && !a.Resolve? && !a.Decr? && !a.MarkDirty? && !a.Release?
    ensures OnTrack(Apply(s, a), Handover(s, h, a), last')
  {
  }

  lemma OnTrackStep(s: State, h: Holder, a: Action, last: Option<uint64>, last': Option<uint64>)
    requires OwnedBy(s, h) && OnTrack(s, h, last) && Enabled(s, a) && Allowed(a)
    requires Issued(s, a) != [] ==> last' == Some(s.threads[a.t].pc.n)
    requires Issued(s, a) == [] && !a.Decr? ==> last' == last
    ensures OnTrack(Apply(s, a), Handover(s, h, a), last')
  {
    if a.Set? {
      OnTrackSet(s, h, a, last, last');
    } else if a.Resolve? || a.Decr? || a.MarkDirty? || a.Release? {
      OnTrackResolution(s, h, a, last, last');
    } else {
      OnTrackOther(s, h, a, last, last');
    }
  }

  /** No other action touches the pending nonce. */
  lemma PendingUntouched(s: State, h: Holder, a: Action, last: Option<uint64>)
    requires OwnedBy(s, h) && OnTrack(s, h, last) && Enabled(s, a)
    requires !a.Set? && !a.Decr? && !a.Resolve? && !a.Crash? && !a.Abandon?
    ensures Pending(Apply(s, a), Handover(s, h, a)) == Pending(s, h)
    ensures Issued(s, a) == Committing(s, a) == Losing(s, a) == Returned(s, a) == []
  {
  }

  lemma SetMovesPending(s: State, h: Holder, a: Action, last: Option<uint64>)
    requires OwnedBy(s, h) && OnTrack(s, h, last) && Enabled(s, a) && a.Set?
    ensures Pending(s, h) == Committing(s, a) == Returned(s, a) == []
    ensures Issued(s, a) == Pending(Apply(s, a), Handover(s, h, a)) + Losing(s, a)
  {
  }

  lemma ResolutionMovesPending(s: State, h: Holder, a: Action, last: Option<uint64>)
    requires OwnedBy(s, h) && OnTrack(s, h, last) && Enabled(s, a) && Allowed(a) && (a.Resolve? || a.Decr?)
    ensures Issued(s, a) == []
    ensures Pending(s, h)
         == Pending(Apply(s, a), Handover(s, h, a)) + Committing(s, a) + Losing(s, a) + Returned(s, a)
  {
  }

  lemma CrashMovesPending(s: State, h: Holder, a: Action, last: Option<uint64>)
    requires OwnedBy(s, h) && OnTrack(s, h, last) && Enabled(s, a) && (a.Crash? || a.Abandon?)
    ensures Issued(s, a) == Committing(s, a) == Returned(s, a) == []
    ensures Pending(s, h) == Pending(Apply(s, a), Handover(s, h, a)) + Losing(s, a)
  {
  }

  /** What was pending or is issued ends up pending, committed, lost or returned. */
  lemma Flow(s: State, h: Holder, a: Action, last: Option<uint64>)
    requires OwnedBy(s, h) && OnTrack(s, h, last) && Enabled(s, a) && Allowed(a)
    ensures multiset(Pending(s, h)) + multiset(Issued(s, a))
         == multiset(Pending(Apply(s, a), Handover(s, h, a)))
          + multiset(Committing(s, a)) + multiset(Losing(s, a)) + multiset(Returned(s, a))
  {
    if a.Set? {
      SetMovesPending(s, h, a, last);
    } else if a.Resolve? || a.Decr? {
      ResolutionMovesPending(s, h, a, last);
    } else if a.Crash? || a.Abandon? {
      CrashMovesPending(s, h, a, last);
    } else {
      PendingUntouched(s, h, a, last);
    }
  }

  /** The counted range after the step: seed and length. */
  function RangeAfter(s: State, a: Action, seed: uint64, k: nat): (uint64, nat)
    requires Enabled(s, a)
  {
    if Issued(s, a) != [] then
      (if s.threads[a.t].pc.SeedFetched? then (s.threads[a.t].pc.n, 1) else (seed, k + 1))
    else if Returned(s, a) != [] && k > 0 then (seed, k - 1)
    else (seed, k)
  }

  lemma SetCommand(s: State, h: Holder, a: Action, last: Option<uint64>)
    requires OwnedBy(s, h) && OnTrack(s, h, last) && Enabled(s, a) && Issued(s, a) != []
    ensures var pc := s.threads[a.t].pc;
            && Apply(s, a).counter == Some(Inc(pc.n)) && Issued(s, a) == [pc.n]
            && s.counter == (if pc.SeedFetched? then None else Some(pc.n))
  {
  }

  /** Counting n on, from nothing or from a range that ends before it. */
  lemma CountOn(counter: Option<int>, n: uint64, seed: uint64, k: nat)
    requires counter == None ==> k == 0
    requires counter.Some? ==> counter.value == n && Congruent(n, seed + k)
    ensures var (seed', k') := if counter.None? then (n, 1) else (seed, k + 1);
            && Congruent(Inc(n), seed' + k')
            && Last(seed', k') == Some(n)
            && Span(seed', k') == Span(seed, k) + multiset{n}
  {
    if counter.None? {
      SeedRange(n);
    } else {
      NextInRange(n, seed, k);
    }
  }

  lemma RangeAfterSet(s: State, a: Action, seed: uint64, k: nat)
    requires Enabled(s, a) && Issued(s, a) != [] && Counts(s, seed, k)
    requires s.counter == (if s.threads[a.t].pc.SeedFetched? then None else Some(s.threads[a.t].pc.n))
    ensures var (seed', k'), n := RangeAfter(s, a, seed, k), s.threads[a.t].pc.n;
            && Congruent(Inc(n), seed' + k')
            && Last(seed', k') == Some(n)
            && Span(seed', k') == Span(seed, k) + multiset{n}
  {
    CountOn(s.counter, s.threads[a.t].pc.n, seed, k);
  }

  lemma SetCounts(s: State, h: Holder, a: Action, seed: uint64, k: nat)
    requires OwnedBy(s, h) && OnTrack(s, h, Last(seed, k)) && Counts(s, seed, k)
    requires Enabled(s, a) && Issued(s, a) != []
    ensures var (seed', k') := RangeAfter(s, a, seed, k);
            && Counts(Apply(s, a), seed', k')
            && Last(seed', k') == Some(s.threads[a.t].pc.n)
            && Span(seed', k') == Span(seed, k) + multiset(Issued(s, a))
  {
    SetCommand(s, h, a, Last(seed, k));
    RangeAfterSet(s, a, seed, k);
  }

  lemma SeedRange(n: uint64)
    ensures Congruent(Inc(n), n + 1) && Nth(n, 0) == n
    ensures Span(n, 1) == multiset{n}
  {
    assert Span(n, 1) == Span(n, 0) + multiset{Nth(n, 0)};
  }

  lemma NextInRange(n: uint64, seed: uint64, k: nat)
    requires Congruent(n, seed + k)
    ensures Congruent(Inc(n), seed + k + 1) && Nth(seed, k) == n
    ensures Span(seed, k + 1) == Span(seed, k) + multiset{n}
  {
    CongruentStep(n, seed + k);
  }

  lemma DecrCounts(s: State, h: Holder, a: Action, seed: uint64, k: nat)
    requires OwnedBy(s, h) && OnTrack(s, h, Last(seed, k)) && Counts(s, seed, k)
    requires Enabled(s, a) && a.Decr?
    ensures var (seed', k') := RangeAfter(s, a, seed, k);
            && Counts(Apply(s, a), seed', k')
            && Span(seed', k') + multiset(Returned(s, a)) == Span(seed, k)
  {
    assert h == Goroutine(a.t) && k > 0;
    assert s.counter.Some?;
    if DecrApplies(s, a.reply) {
      assert Apply(s, a).counter == Some(s.counter.value - 1);
      CongruentStep(s.counter.value, seed + k);
      assert Returned(s, a) == [Nth(seed, k - 1)];
    } else {
      assert Apply(s, a).counter == s.counter;
    }
  }

  lemma CounterUntouched(s: State, a: Action)
    requires Enabled(s, a) && Issued(s, a) == [] && !a.Decr?
    ensures Apply(s, a).counter == s.counter && Returned(s, a) == []
  {
  }

  /** Adding up: the books balance after the step if they did before. */
  lemma Rebalance(span: multiset<nat>, span': multiset<nat>, committed: multiset<nat>, lost: multiset<nat>,
                  pending: multiset<nat>, pending': multiset<nat>, issued: multiset<nat>,
                  returned: multiset<nat>, committing: multiset<nat>, losing: multiset<nat>)
    requires span == committed + lost + pending
    requires span' + returned == span + issued
    requires pending + issued == pending' + committing + losing + returned
    ensures span' == committed + committing + (lost + losing) + pending'
  {
    forall x
      ensures span'[x] == (committed + committing + (lost + losing) + pending')[x]
    {
      assert (span' + returned)[x] == (span + issued)[x];
      assert (pending + issued)[x] == (pending' + committing + losing + returned)[x];
    }
  }

  lemma RangeStep(s: State, h: Holder, a: Action, seed: uint64, k: nat)
    requires OwnedBy(s, h) && OnTrack(s, h, Last(seed, k)) && Counts(s, seed, k)
    requires Enabled(s, a) && Allowed(a)
    ensures var (seed', k') := RangeAfter(s, a, seed, k);
            && Counts(Apply(s, a), seed', k')
            && OnTrack(Apply(s, a), Handover(s, h, a), Last(seed', k'))
            && Span(seed', k') + multiset(Returned(s, a)) == Span(seed, k) + multiset(Issued(s, a))
  {
    var (seed', k') := RangeAfter(s, a, seed, k);
    if Issued(s, a) != [] {
      SetCounts(s, h, a, seed, k);
    } else if a.Decr? {
      DecrCounts(s, h, a, seed, k);
    } else {
      CounterUntouched(s, a);
    }
    OnTrackStep(s, h, a, Last(seed, k), Last(seed', k'));
  }

  lemma StepKeepsInv(b: Books, h: Holder, a: Action, seed: uint64, k: nat)
    requires Inv(b, h, seed, k) && Enabled(b.s, a) && Allowed(a)
    ensures var (seed', k') := RangeAfter(b.s, a, seed, k);
            Inv(Step(b, a), Handover(b.s, h, a), seed', k')
  {
    var s := b.s;
    var (seed', k') := RangeAfter(s, a, seed, k);
    StepKeepsOwner(s, h, a);
    RangeStep(s, h, a, seed, k);
    Flow(s, h, a, Last(seed, k));
    Rebalance(Span(seed, k), Span(seed', k'), multiset(b.committed), multiset(b.lost),
              multiset(Pending(s, h)), multiset(Pending(Apply(s, a), Handover(s, h, a))),
              multiset(Issued(s, a)), multiset(Returned(s, a)),
              multiset(Committing(s, a)), multiset(Losing(s, a)));
  }

  lemma {:induction false} RunKeepsInv(b: Books, h: Holder, run: seq<Action>, seed: uint64, k: nat)
    returns (h': Holder, seed': uint64, k': nat)
    requires Inv(b, h, seed, k) && Legal(b.s, run) && NoReclaim(run)
    ensures Inv(Replay(b, run), h', seed', k')
    decreases |run|
  {
    if run == [] {
      h', seed', k' := h, seed, k;
    } else {
      var a := run[0];
      StepKeepsInv(b, h, a, seed, k);
      assert forall x :: x in run[1..] ==> x in run;
      var (seed1, k1) := RangeAfter(b.s, a, seed, k);
      h', seed', k' := RunKeepsInv(Step(b, a), Handover(b.s, h, a), run[1..], seed1, k1);
    }
  }

  /** What is outstanding in s, read off the state alone. */
  ghost predicate IsOutstanding(s: State, m: multiset<nat>) {
    exists h :: OwnedBy(s, h) && m == multiset(Pending(s, h))
  }

  /**
   Conservation.  In every run without Reclaim, with any number of instances and
   goroutines, crashes at any point and commands that fail ambiguously, the range
   counted from the seed up to the counter is the disjoint union of the committed
   nonces, at most one outstanding nonce and the lost ones.
   */
  lemma Conservation(run: seq<Action>) returns (seed: uint64, k: nat, outstanding: seq<nat>)
    requires Legal(Initial(), run) && NoReclaim(run)
    ensures var b := Replay(Books(Initial(), [], []), run);
            && b.s == Final(Initial(), run)
            && (b.s.counter.None? ==> k == 0)
            && (b.s.counter.Some? ==> Congruent(b.s.counter.value, seed + k))
            && Span(seed, k) == multiset(b.committed) + multiset(b.lost) + multiset(outstanding)
            && |outstanding| <= 1
            && IsOutstanding(b.s, multiset(outstanding))
  {
    var start := Books(Initial(), [], []);
    assert Inv(start, Nobody, 0, 0);
    ReplayEndsAtFinal(start, run);
    var h;
    h, seed, k := RunKeepsInv(start, Nobody, run, 0, 0);
    outstanding := Pending(Final(Initial(), run), h);
  }

  // ------------------------------------------------------------- no duplicates

  lemma {:induction false} SpanMember(seed: uint64, k: nat, x: nat) returns (j: nat)
    requires x in Span(seed, k)
    ensures j < k && x == Nth(seed, j)
  {
    j := k - 1;
    if x != Nth(seed, k - 1) {
      j := SpanMember(seed, k - 1, x);
    }
  }

  lemma Distinct(seed: uint64, i: nat, j: nat)
    requires i < j < TWO_64
    ensures Nth(seed, i) != Nth(seed, j)
  {
  }

  /** Below 2^64 hand-outs the range has no repetition. */
  lemma {:induction false} SpanIsASet(seed: uint64, k: nat, x: nat)
    requires k <= TWO_64
    ensures Span(seed, k)[x] <= 1
  {
    if k > 0 {
      SpanIsASet(seed, k - 1, x);
      if x in Span(seed, k - 1) {
        var j := SpanMember(seed, k - 1, x);
        Distinct(seed, j, k - 1);
      }
    }
  }

  lemma {:induction false} SpanSize(seed: uint64, k: nat)
    ensures |Span(seed, k)| == k
  {
    if k > 0 {
      SpanSize(seed, k - 1);
    }
  }

  lemma {:induction false} SpanHas(seed: uint64, k: nat, j: nat)
    requires j < k
    ensures Nth(seed, j) in Span(seed, k)
    decreases k
  {
    if j < k - 1 {
      SpanHas(seed, k - 1, j);
    }
  }

  lemma {:induction false} SpanHasTwice(seed: uint64, k: nat, i: nat, j: nat)
    requires i < j < k && Nth(seed, i) == Nth(seed, j)
    ensures Span(seed, k)[Nth(seed, j)] >= 2
    decreases k
  {
    if j == k - 1 {
      SpanHas(seed, k - 1, i);
    } else {
      SpanHasTwice(seed, k - 1, i, j);
    }
  }

  lemma ComesRound(seed: uint64)
    ensures Nth(seed, 0) == Nth(seed, TWO_64)
  {
  }

  /** Every nonce given out in the run, as often as it was: committed, lost, or outstanding with h. */
  function GivenOut(run: seq<Action>, h: Holder): multiset<nat>
    requires Legal(Initial(), run)
  {
    var b := Replay(Books(Initial(), [], []), run);
    multiset(b.committed) + multiset(b.lost) + multiset(Pending(b.s, h))
  }

  lemma CountsGivenOut(run: seq<Action>) returns (h: Holder, seed: uint64, k: nat)
    requires Legal(Initial(), run) && NoReclaim(run)
    ensures OwnedBy(Final(Initial(), run), h) && GivenOut(run, h) == Span(seed, k) && |GivenOut(run, h)| == k
  {
    var start := Books(Initial(), [], []);
    assert Inv(start, Nobody, 0, 0);
    ReplayEndsAtFinal(start, run);
    h, seed, k := RunKeepsInv(start, Nobody, run, 0, 0);
    SpanSize(seed, k);
  }

  /**
   Hence no nonce is committed twice, or both committed and lost, or given out again while
   one of its kind is outstanding: exactly as long as no more nonces have been given out
   than a uint64 has values.
   */
  lemma CommittedOnceExactly(run: seq<Action>) returns (h: Holder)
    requires Legal(Initial(), run) && NoReclaim(run)
    ensures OwnedBy(Final(Initial(), run), h)
    ensures (forall x :: GivenOut(run, h)[x] <= 1) <==> |GivenOut(run, h)| <= TWO_64
  {
    var seed, k;
    h, seed, k := CountsGivenOut(run);
    if k <= TWO_64 {
      forall x
        ensures Span(seed, k)[x] <= 1
      {
        SpanIsASet(seed, k, x);
      }
    } else {
      ComesRound(seed);
      SpanHasTwice(seed, k, 0, TWO_64);
    }
  }

  /** How many SETs a run makes. */
  function Stores(run: seq<Action>): nat {
    if run == [] then 0 else (if run[0].Set? then 1 else 0) + Stores(run[1..])
  }

  /** A nonce is given out by a SET only. */
  lemma {:induction false} AtMostOnePerStore(b: Books, h: Holder, run: seq<Action>, seed: uint64, k: nat)
    returns (h': Holder)
    requires Inv(b, h, seed, k) && Legal(b.s, run) && NoReclaim(run)
    ensures var b' := Replay(b, run);
            && OwnedBy(b'.s, h')
            && |b'.committed| + |b'.lost| + |Pending(b'.s, h')| <= k + Stores(run)
    decreases |run|
  {
    if run == [] {
      h' := h;
      SpanSize(seed, k);
      assert |Span(seed, k)| == |multiset(b.committed)| + |multiset(b.lost)| + |multiset(Pending(b.s, h))|;
    } else {
      var a := run[0];
      StepKeepsInv(b, h, a, seed, k);
      assert forall x :: x in run[1..] ==> x in run;
      var (seed1, k1) := RangeAfter(b.s, a, seed, k);
      h' := AtMostOnePerStore(Step(b, a), Handover(b.s, h, a), run[1..], seed1, k1);
    }
  }

  lemma OneHolder(s: State, h: Holder, h': Holder)
    requires OwnedBy(s, h) && OwnedBy(s, h')
    ensures h == h'
  {
    assert h.Goroutine? ==> Critical(s, h.t);
    assert h'.Goroutine? ==> Critical(s, h'.t);
    assert h.OpenSlot? ==> IsOpen(s, h.i);
    assert h'.OpenSlot? ==> IsOpen(s, h'.i);
  }

  /**
   In particular in every run of at most 2^64 SETs each nonce is committed, lost or
   outstanding at most once altogether; h is the one goroutine or slot that relies on
   the lock at the end, if any.
   */
  lemma CommittedOnce(run: seq<Action>, x: nat) returns (h: Holder)
    requires Legal(Initial(), run) && NoReclaim(run) && Stores(run) <= TWO_64
    ensures OwnedBy(Final(Initial(), run), h)
    ensures var b := Replay(Books(Initial(), [], []), run);
            && b.s == Final(Initial(), run)
            && multiset(b.committed)[x] + multiset(b.lost)[x] + multiset(Pending(b.s, h))[x] <= 1
  {
    var start := Books(Initial(), [], []);
    assert Inv(start, Nobody, 0, 0);
    ReplayEndsAtFinal(start, run);
    var h' := AtMostOnePerStore(start, Nobody, run, 0, 0);
    h := CommittedOnceExactly(run);
    OneHolder(Final(Initial(), run), h, h');
    assert GivenOut(run, h)[x] <= 1;
  }

  // -------------------------------------------------------- coming round again

  const ASKS: seq<Action> := [Call(0, 0), SetNX(0, Done), LoadDirty(0), Exists(0, true)]

  function Commits(i: nat): seq<Action> {
    [Resolve(0, i, Commit), Release(0, Done)]
  }

  /** One Acquire, committed at once, and what follows; get finds the nonce, i is the number of slots before. */
  function RoundThen(get: Action, i: nat, rest: seq<Action>): seq<Action> {
    ASKS + ([get, Set(0, Done)] + (Commits(i) + rest))
  }

  /** k Acquires of one goroutine, each committed at once; i is the number of slots before. */
  function Rounds(i: nat, k: nat): seq<Action>
    decreases k
  {
    if k == 0 then [] else RoundThen(Get(0, true), i, Rounds(i + 1, k - 1))
  }

  predicate Idle(b: Books) {
    && b.s.lock.None? && b.s.dirty == {} && b.s.threads == map[] && b.lost == []
    && forall i :: 0 <= i < |b.s.slots| ==> b.s.slots[i].status.Closed?
  }

  lemma {:induction false} ReplayConcat(b: Books, r1: seq<Action>, r2: seq<Action>)
    requires Legal(b.s, r1) && Legal(Replay(b, r1).s, r2)
    ensures Legal(b.s, r1 + r2) && Replay(b, r1 + r2) == Replay(Replay(b, r1), r2)
    decreases |r1|
  {
    if r1 == [] {
      assert r1 + r2 == r2;
    } else {
      assert (r1 + r2)[1..] == r1[1..] + r2;
      ReplayConcat(Step(b, r1[0]), r1[1..], r2);
    }
  }

  lemma ReplayTwo(b: Books, x: Action, y: Action)
    requires Enabled(b.s, x) && Enabled(Step(b, x).s, y)
    ensures Legal(b.s, [x, y]) && Replay(b, [x, y]) == Step(Step(b, x), y)
  {
    assert [x, y][1..] == [y] && [y][1..] == [];
    assert Replay(Step(b, x), [y]) == Replay(Step(Step(b, x), y), []);
  }

  /** Goroutine 0 of instance 0 has the lock and is at pc. */
  function Inside(s: State, pc: Pc): State {
    s.(lock := Some(0), threads := map[0 := Thread(0, pc)])
  }

  lemma AsksCounter(b: Books)
    requires Idle(b)
    ensures Legal(b.s, ASKS)
    ensures Replay(b, ASKS) == b.(s := Inside(b.s, if b.s.counter.None? then SeedWait else Reading))
  {
    var b2 := b.(s := Inside(b.s, Checking));
    ReplayTwo(b, Call(0, 0), SetNX(0, Done));
    assert Step(Step(b, Call(0, 0)), SetNX(0, Done)) == b2;
    ReplayTwo(b2, LoadDirty(0), Exists(0, true));
    ReplayConcat(b, [Call(0, 0), SetNX(0, Done)], [LoadDirty(0), Exists(0, true)]);
    assert ASKS == [Call(0, 0), SetNX(0, Done)] + [LoadDirty(0), Exists(0, true)];
  }

  /** Obtaining nonce n, by GET or from the source, and storing its successor. */
  lemma StoresNext(b: Books, b': Books, get: Action, n: uint64)
    requires Idle(b)
    requires || (get == Get(0, true) && b' == b.(s := Inside(b.s, Reading)) && b.s.counter == Some(n))
             || (get == Fetch(0, n) && b' == b.(s := Inside(b.s, SeedWait)))
    ensures Legal(b'.s, [get, Set(0, Done)])
    ensures Replay(b', [get, Set(0, Done)])
         == b.(s := b.s.(lock := Some(0), counter := Some(Inc(n)), slots := b.s.slots + [Slot(0, n, Open)]))
  {
    ReplayTwo(b', get, Set(0, Done));
  }

  /** The books after nonce n has been acquired and committed. */
  function AfterRound(b: Books, n: uint64): Books {
    Books(b.s.(counter := Some(Inc(n)), slots := b.s.slots + [Slot(0, n, Closed)]), b.committed + [n], b.lost)
  }

  lemma CommitsNewest(b: Books, b': Books, n: uint64)
    requires Idle(b)
    requires b' == b.(s := b.s.(lock := Some(0), counter := Some(Inc(n)), slots := b.s.slots + [Slot(0, n, Open)]))
    ensures Legal(b'.s, Commits(|b.s.slots|)) && Replay(b', Commits(|b.s.slots|)) == AfterRound(b, n)
  {
    ReplayTwo(b', Resolve(0, |b.s.slots|, Commit), Release(0, Done));
  }

  lemma ReplayThree(b: Books, r1: seq<Action>, r2: seq<Action>, r3: seq<Action>, rest: seq<Action>)
    requires Legal(b.s, r1) && Legal(Replay(b, r1).s, r2) && Legal(Replay(Replay(b, r1), r2).s, r3)
    requires Legal(Replay(Replay(Replay(b, r1), r2), r3).s, rest)
    ensures Legal(b.s, r1 + (r2 + (r3 + rest)))
    ensures Replay(b, r1 + (r2 + (r3 + rest))) == Replay(Replay(Replay(Replay(b, r1), r2), r3), rest)
  {
    ReplayConcat(Replay(Replay(b, r1), r2), r3, rest);
    ReplayConcat(Replay(b, r1), r2, r3 + rest);
    ReplayConcat(b, r1, r2 + (r3 + rest));
  }

  /** One round and what follows it. */
  lemma RoundCommits(b: Books, get: Action, n: uint64, rest: seq<Action>)
    requires Idle(b) && Legal(AfterRound(b, n).s, rest)
    requires if b.s.counter.None? then get == Fetch(0, n) else get == Get(0, true) && b.s.counter == Some(n)
    ensures Idle(AfterRound(b, n))
    ensures var run := RoundThen(get, |b.s.slots|, rest);
            Legal(b.s, run) && Replay(b, run) == Replay(AfterRound(b, n), rest)
  {
    AsksCounter(b);
    var b1 := Replay(b, ASKS);
    StoresNext(b, b1, get, n);
    CommitsNewest(b, Replay(b1, [get, Set(0, Done)]), n);
    ReplayThree(b, ASKS, [get, Set(0, Done)], Commits(|b.s.slots|), rest);
  }

  lemma {:induction false} RoundsCommit(b: Books, k: nat)
    requires Idle(b) && b.s.counter.Some? && Parses(b.s.counter.value)
    ensures Legal(b.s, Rounds(|b.s.slots|, k))
    ensures var b' := Replay(b, Rounds(|b.s.slots|, k));
            Idle(b') && |b'.committed| == |b.committed| + k
    decreases k
  {
    if k > 0 {
      var n := b.s.counter.value;
      RoundsCommit(AfterRound(b, n), k - 1);
      RoundCommits(b, Get(0, true), n, Rounds(|b.s.slots| + 1, k - 1));
    }
  }

  lemma {:induction false} RoundsReclaimNothing(i: nat, k: nat)
    ensures NoReclaim(Rounds(i, k))
    decreases k
  {
    if k > 0 {
      RoundsReclaimNothing(i + 1, k - 1);
    }
  }

  lemma ManyCommits(k: nat) returns (run: seq<Action>)
    ensures Legal(Initial(), run) && NoReclaim(run)
    ensures var end := Replay(Books(Initial(), [], []), run);
            Idle(end) && |end.committed| == k + 1 && end.s == Final(Initial(), run)
  {
    var b := Books(Initial(), [], []);
    var rest := Rounds(1, k);
    RoundsReclaimNothing(1, k);
    RoundsCommit(AfterRound(b, 0), k);
    RoundCommits(b, Fetch(0, 0), 0, rest);
    run := RoundThen(Fetch(0, 0), 0, rest);
    ReplayEndsAtFinal(b, run);
  }

  /** The condition is needed: after 2^64 + 1 Acquires, each committed, some nonce is committed twice. */
  lemma CommitsRepeatInTheEnd() returns (run: seq<Action>, x: nat)
    ensures Legal(Initial(), run) && NoReclaim(run)
    ensures multiset(Replay(Books(Initial(), [], []), run).committed)[x] >= 2
  {
    run := ManyCommits(TWO_64);
    var end := Replay(Books(Initial(), [], []), run);
    var h := CommittedOnceExactly(run);
    assert forall i: nat :: !IsOpen(end.s, i);
    assert Pending(end.s, h) == [];
    assert GivenOut(run, h) == multiset(end.committed);
    x :| GivenOut(run, h)[x] > 1;
  }
}
