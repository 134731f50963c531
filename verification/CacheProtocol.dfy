/**
 Concurrent lookups in one deployment's cache as a step system: double-checked locking
 with a read-write lock over the three maps, while the chain registry changes.
 */
module CacheProtocol {
  import opened Common
  import opened ChainRegistry
  import opened Versions

  /** One entry of one of the three maps. */
  datatype Item = Item(c: Contract, key: Key)

  /** What an uncached Load of an entry's record at its chain id answers. */
  type Loader = Item -> Result<Parsed, LoadError>

  function LoaderOf(records: Records): Loader {
    (item: Item) => LoadSpec(records.Of(item.c), item.key)
  }

  /** A lookup's outcome: a pointer into the heap, or Load's error. */
  type Outcome = Result<nat, LoadError>

  datatype Pc =
    | Resolving(c: Contract, id: Key)
    | WantRead(item: Item)
    | Reading(item: Item)                         // holds the read lock
    | DoneReading(item: Item, hit: Option<nat>)   // holds the read lock
    | WantWrite(item: Item)
    | Rechecking(item: Item)                      // these four hold the write lock
    | Loading(item: Item)
    | Storing(item: Item, p: nat)
    | Leaving(item: Item, out: Outcome)

  /** What a call by goroutine t returned. */
  datatype Return = Return(t: nat, out: Outcome)

  datatype State = State(
    chains: map<Key, Chain>,
    cache: map<Item, nat>,      // the three maps, by contract and chain id
    heap: seq<Parsed>,          // pointer -> parsed deployment
    writer: Option<nat>,
    readers: set<nat>,
    threads: map<nat, Pc>,
    loads: seq<Item>,           // successful loads, oldest first
    returned: seq<Return>)      // returned calls, oldest first

  datatype Action =
    | Register(chain: Chain)
    | Deregister(id: Key)
    | Call(t: nat, c: Contract, id: Key)
    | ResolveID(t: nat)
    | RLock(t: nat)
    | Read(t: nat)
    | RUnlock(t: nat)
    | Lock(t: nat)
    | Recheck(t: nat)
    | LoadIt(t: nat)
    | Store(t: nat)
    | Unlock(t: nat)

  predicate At(s: State, t: nat) {
    t in s.threads
  }

  predicate Enabled(s: State, a: Action) {
    match a
    case Register(_) => true
    case Deregister(_) => true
    case Call(t, _, _) => !At(s, t)
    case ResolveID(t) => At(s, t) && s.threads[t].Resolving?
    case RLock(t) => At(s, t) && s.threads[t].WantRead? && s.writer.None?
    case Read(t) => At(s, t) && s.threads[t].Reading?
    case RUnlock(t) => At(s, t) && s.threads[t].DoneReading?
    case Lock(t) => At(s, t) && s.threads[t].WantWrite? && s.writer.None? && s.readers == {}
    case Recheck(t) => At(s, t) && s.threads[t].Rechecking?
    case LoadIt(t) => At(s, t) && s.threads[t].Loading?
    case Store(t) => At(s, t) && s.threads[t].Storing?
    case Unlock(t) => At(s, t) && s.threads[t].Leaving?
  }

  function Goto(s: State, t: nat, pc: Pc): State {
    s.(threads := s.threads[t := pc])
  }

  function Give(s: State, t: nat, out: Outcome): State {
    s.(threads := s.threads - {t}, returned := s.returned + [Return(t, out)])
  }

  function Apply(load: Loader, s: State, a: Action): State
    requires Enabled(s, a)
  {
    match a
    case Register(chain) => s.(chains := s.chains[chain.id := chain])
    case Deregister(id) => s.(chains := s.chains - {id})
    case Call(t, c, id) => Goto(s, t, Resolving(c, id))
    case ResolveID(t) => Goto(s, t, WantRead(Item(s.threads[t].c, Resolve(s.chains, s.threads[t].id))))
    case RLock(t) => Goto(s, t, Reading(s.threads[t].item)).(readers := s.readers + {t})
    case Read(t) =>
      var item := s.threads[t].item;
      Goto(s, t, DoneReading(item, if item in s.cache then Some(s.cache[item]) else None))
    case RUnlock(t) =>
      var pc, r := s.threads[t], s.(readers := s.readers - {t});
      if pc.hit.Some? then Give(r, t, Ok(pc.hit.value)) else Goto(r, t, WantWrite(pc.item))
    case Lock(t) => Goto(s, t, Rechecking(s.threads[t].item)).(writer := Some(t))
    case Recheck(t) =>
      var item := s.threads[t].item;
      Goto(s, t, if item in s.cache then Leaving(item, Ok(s.cache[item])) else Loading(item))
    case LoadIt(t) =>
      var item := s.threads[t].item;
      (match load(item)
       case Ok(v) => Goto(s, t, Storing(item, |s.heap|)).(heap := s.heap + [v], loads := s.loads + [item])
       case Err(e) => Goto(s, t, Leaving(item, Err(e))))
    case Store(t) =>
      var Storing(item, p) := s.threads[t];
      Goto(s, t, Leaving(item, Ok(p))).(cache := s.cache[item := p])
    case Unlock(t) => Give(s.(writer := None), t, s.threads[t].out)
  }

  predicate Legal(load: Loader, s: State, run: seq<Action>)
    decreases |run|
  {
    run == [] || (Enabled(s, run[0]) && Legal(load, Apply(load, s, run[0]), run[1..]))
  }

  function Final(load: Loader, s: State, run: seq<Action>): State
    requires Legal(load, s, run)
    decreases |run|
  {
    if run == [] then s else Final(load, Apply(load, s, run[0]), run[1..])
  }

  function Initial(chains: map<Key, Chain>): State {
    State(chains, map[], [], None, {}, map[], [], [])
  }

  // ---------------------------------------------------------------- observing

  /** What goroutine t asked for, and the registry its question was resolved in. */
  datatype Ask = Ask(t: nat, c: Contract, id: Key, chains: map<Key, Chain>) {
    function Entry(): Item {
      Item(c, Resolve(chains, id))
    }
  }

  /**
   A run seen from outside: the arguments of the calls under way and of those that have
   returned, oldest first, noted from the calls themselves and from the registry at the
   moment of resolution, whatever the goroutines do with them.
   */
  datatype Watch = Watch(s: State, asks: map<nat, Ask>, answered: seq<Ask>)

  function Observe(load: Loader, w: Watch, a: Action): Watch
    requires Enabled(w.s, a)
  {
    var s' := Apply(load, w.s, a);
    match a
    case Call(t, c, id) => Watch(s', w.asks[t := Ask(t, c, id, w.s.chains)], w.answered)
    case ResolveID(t) =>
      if t in w.asks then Watch(s', w.asks[t := w.asks[t].(chains := w.s.chains)], w.answered)
      else w.(s := s')
    case Register(_) => w.(s := s')
    case Deregister(_) => w.(s := s')
    case _ =>
      if a.t in w.asks && !At(s', a.t) then Watch(s', w.asks - {a.t}, w.answered + [w.asks[a.t]])
      else w.(s := s')
  }

  function Replay(load: Loader, w: Watch, run: seq<Action>): Watch
    requires Legal(load, w.s, run)
    decreases |run|
  {
    if run == [] then w else Replay(load, Observe(load, w, run[0]), run[1..])
  }

  /** Everything noted in a run from the start. */
  function Observed(load: Loader, chains: map<Key, Chain>, run: seq<Action>): Watch
    requires Legal(load, Initial(chains), run)
  {
    Replay(load, Watch(Initial(chains), map[], []), run)
  }

  // ------------------------------------------------------------------ locking

  predicate Writes(pc: Pc) {
    pc.Rechecking? || pc.Loading? || pc.Storing? || pc.Leaving?
  }

  predicate Reads(pc: Pc) {
    pc.Reading? || pc.DoneReading?
  }

  /** The lock's owners are exactly the goroutines inside its sections, and a writer is alone. */
  predicate Locked(s: State) {
    && (forall t :: t in s.threads ==> (Writes(s.threads[t]) <==> s.writer == Some(t)))
    && (forall t :: t in s.threads ==> (Reads(s.threads[t]) <==> t in s.readers))
    && (s.writer.Some? ==> s.writer.value in s.threads && s.readers == {})
    && (forall t :: t in s.readers ==> t in s.threads)
  }

  lemma StepKeepsLocked(load: Loader, s: State, a: Action)
    requires Locked(s) && Enabled(s, a)
    ensures Locked(Apply(load, s, a))
  {
  }

  // ----------------------------------------------------------------- contents

  /** p is a pointer to what Load returns for item. */
  predicate PointsTo(load: Loader, heap: seq<Parsed>, item: Item, p: nat) {
    p < |heap| && load(item) == Ok(heap[p])
  }

  /** out is the cached pointer for item, or the error Load gives. */
  predicate Settled(load: Loader, s: State, item: Item, out: Outcome) {
    match out
    case Ok(p) => item in s.cache && s.cache[item] == p
    case Err(e) => load(item) == Err(e)
  }

  predicate PcSound(load: Loader, s: State, pc: Pc) {
    match pc
    case DoneReading(item, hit) => hit.Some? ==> Settled(load, s, item, Ok(hit.value))
    case Loading(item) => item !in s.cache
    case Storing(item, p) => item !in s.cache && PointsTo(load, s.heap, item, p)
    case Leaving(item, out) => Settled(load, s, item, out)
    case _ => true
  }

  /** The item that has been loaded but not stored yet. */
  function InHand(s: State): multiset<Item> {
    if s.writer.Some? && s.writer.value in s.threads && s.threads[s.writer.value].Storing?
    then multiset{s.threads[s.writer.value].item} else multiset{}
  }

  predicate CacheSound(load: Loader, s: State) {
    forall item :: item in s.cache ==> PointsTo(load, s.heap, item, s.cache[item])
  }

  predicate ThreadsSound(load: Loader, s: State) {
    forall t :: t in s.threads ==> PcSound(load, s, s.threads[t])
  }

  /** A goroutine is after what its call asked for. */
  predicate Pursues(pc: Pc, ask: Ask) {
    match pc
    case Resolving(c, id) => c == ask.c && id == ask.id
    case _ => pc.item == ask.Entry()
  }

  predicate AsksSound(w: Watch) {
    forall t :: t in w.s.threads ==> t in w.asks && w.asks[t].t == t && Pursues(w.s.threads[t], w.asks[t])
  }

  predicate ReturnsSound(load: Loader, w: Watch) {
    && |w.answered| == |w.s.returned|
    && forall i :: 0 <= i < |w.answered| ==>
         && w.answered[i].t == w.s.returned[i].t
         && Settled(load, w.s, w.answered[i].Entry(), w.s.returned[i].out)
  }

  /** Every successful load has been stored, or is about to be. */
  predicate Counted(s: State) {
    multiset(s.loads) == multiset(s.cache.Keys) + InHand(s)
  }

  predicate Inv(load: Loader, s: State) {
    Locked(s) && CacheSound(load, s) && ThreadsSound(load, s) && Counted(s)
  }

  predicate WatchInv(load: Loader, w: Watch) {
    Inv(load, w.s) && AsksSound(w) && ReturnsSound(load, w)
  }

  lemma StepKeepsContents(load: Loader, s: State, a: Action)
    requires Inv(load, s) && Enabled(s, a)
    ensures CacheSound(load, Apply(load, s, a))
  {
  }

  lemma StepKeepsAsks(load: Loader, w: Watch, a: Action)
    requires AsksSound(w) && Enabled(w.s, a)
    ensures AsksSound(Observe(load, w, a))
  {
  }

  /** What is settled stays settled: entries are never replaced. */
  lemma StepKeepsSettled(load: Loader, s: State, a: Action, item: Item, out: Outcome)
    requires ThreadsSound(load, s) && Enabled(s, a) && Settled(load, s, item, out)
    ensures Settled(load, Apply(load, s, a), item, out)
  {
    if a.Store? {
      assert PcSound(load, s, s.threads[a.t]);
    }
  }

  lemma StepKeepsReturns(load: Loader, w: Watch, a: Action)
    requires WatchInv(load, w) && Enabled(w.s, a)
    ensures ReturnsSound(load, Observe(load, w, a))
  {
    var w' := Observe(load, w, a);
    forall i | 0 <= i < |w.answered|
      ensures Settled(load, w'.s, w.answered[i].Entry(), w.s.returned[i].out)
    {
      StepKeepsSettled(load, w.s, a, w.answered[i].Entry(), w.s.returned[i].out);
    }
    if a.RUnlock? || a.Unlock? {
      assert PcSound(load, w.s, w.s.threads[a.t]);
      assert Pursues(w.s.threads[a.t], w.asks[a.t]);
    }
  }

  lemma WriteKeepsThreads(load: Loader, s: State, a: Action)
    requires Inv(load, s) && Enabled(s, a) && (a.Store? || a.LoadIt?)
    ensures ThreadsSound(load, Apply(load, s, a))
  {
    assert forall t :: t in s.threads && t != a.t ==> !Writes(s.threads[t]) && !Reads(s.threads[t]);
  }

  lemma OtherKeepsThreads(load: Loader, s: State, a: Action)
    requires Inv(load, s) && Enabled(s, a) && !a.Store? && !a.LoadIt?
    ensures ThreadsSound(load, Apply(load, s, a))
  {
  }

  lemma HandUntouched(load: Loader, s: State, a: Action)
    requires Locked(s) && Enabled(s, a) && !a.Store? && !a.LoadIt?
    ensures var s' := Apply(load, s, a);
            InHand(s') == InHand(s) && s'.loads == s.loads && s'.cache == s.cache
  {
  }

  lemma LoadTakesInHand(load: Loader, s: State, a: Action)
    requires Locked(s) && Enabled(s, a) && a.LoadIt?
    ensures var s' := Apply(load, s, a);
            && InHand(s) == multiset{} && s'.cache == s.cache
            && (if load(s.threads[a.t].item).Ok?
                then InHand(s') == multiset{s.threads[a.t].item} && s'.loads == s.loads + [s.threads[a.t].item]
                else InHand(s') == multiset{} && s'.loads == s.loads)
  {
  }

  lemma StoreEmptiesHand(load: Loader, s: State, a: Action)
    requires Locked(s) && ThreadsSound(load, s) && Enabled(s, a) && a.Store?
    ensures var s', item := Apply(load, s, a), s.threads[a.t].item;
            && InHand(s) == multiset{item} && InHand(s') == multiset{} && s'.loads == s.loads
            && item !in s.cache && s'.cache.Keys == s.cache.Keys + {item}
  {
    assert PcSound(load, s, s.threads[a.t]);
  }

  lemma StepKeepsCounted(load: Loader, s: State, a: Action)
    requires Inv(load, s) && Enabled(s, a)
    ensures Counted(Apply(load, s, a))
  {
    if a.Store? {
      StoreEmptiesHand(load, s, a);
    } else if a.LoadIt? {
      LoadTakesInHand(load, s, a);
    } else {
      HandUntouched(load, s, a);
    }
  }

  lemma StepKeepsInv(load: Loader, s: State, a: Action)
    requires Inv(load, s) && Enabled(s, a)
    ensures Inv(load, Apply(load, s, a))
  {
    StepKeepsLocked(load, s, a);
    StepKeepsContents(load, s, a);
    StepKeepsCounted(load, s, a);
    if a.Store? || a.LoadIt? {
      WriteKeepsThreads(load, s, a);
    } else {
      OtherKeepsThreads(load, s, a);
    }
  }

  lemma {:induction false} RunKeepsInv(load: Loader, w: Watch, run: seq<Action>)
    requires WatchInv(load, w) && Legal(load, w.s, run)
    ensures WatchInv(load, Replay(load, w, run)) && Replay(load, w, run).s == Final(load, w.s, run)
    decreases |run|
  {
    if run != [] {
      StepKeepsInv(load, w.s, run[0]);
      StepKeepsAsks(load, w, run[0]);
      StepKeepsReturns(load, w, run[0]);
      RunKeepsInv(load, Observe(load, w, run[0]), run[1..]);
    }
  }

  lemma ObservedSound(load: Loader, chains: map<Key, Chain>, run: seq<Action>)
    requires Legal(load, Initial(chains), run)
    ensures WatchInv(load, Observed(load, chains, run))
    ensures Observed(load, chains, run).s == Final(load, Initial(chains), run)
  {
    RunKeepsInv(load, Watch(Initial(chains), map[], []), run);
  }

  // ------------------------------------------------------------------ theorems

  lemma CountedOnce(load: Loader, s: State, item: Item)
    requires Locked(s) && ThreadsSound(load, s) && Counted(s)
    ensures multiset(s.loads)[item] <= 1
  {
    if s.writer.Some? && s.threads[s.writer.value].Storing? {
      assert PcSound(load, s, s.threads[s.writer.value]);
    }
    assert multiset(s.loads)[item] == (multiset(s.cache.Keys) + InHand(s))[item];
  }

  /**
   Double-checked locking.  In every interleaving each entry of each map is loaded
   successfully at most once, and all calls whose questions come to the same entry have
   the same outcome, which for a pointer is the cached one.
   */
  lemma LoadedOnce(load: Loader, chains: map<Key, Chain>, run: seq<Action>)
    requires Legal(load, Initial(chains), run)
    ensures var s, asked := Final(load, Initial(chains), run), Observed(load, chains, run).answered;
            && |asked| == |s.returned|
            && (forall item :: multiset(s.loads)[item] <= 1)
            && (forall i, j ::
                  0 <= i < |asked| && 0 <= j < |asked| && asked[i].Entry() == asked[j].Entry() ==>
                  s.returned[i].out == s.returned[j].out)
            && (forall i :: 0 <= i < |asked| && s.returned[i].out.Ok? ==>
                  asked[i].Entry() in s.cache && s.cache[asked[i].Entry()] == s.returned[i].out.value)
  {
    ObservedSound(load, chains, run);
    var s, asked := Final(load, Initial(chains), run), Observed(load, chains, run).answered;
    forall item
      ensures multiset(s.loads)[item] <= 1
    {
      CountedOnce(load, s, item);
    }
    forall i, j | 0 <= i < |asked| && 0 <= j < |asked| && asked[i].Entry() == asked[j].Entry()
      ensures s.returned[i].out == s.returned[j].out
    {
      assert Settled(load, s, asked[i].Entry(), s.returned[i].out);
      assert Settled(load, s, asked[j].Entry(), s.returned[j].out);
    }
  }

  /** What a returned call means. */
  function Meaning(heap: seq<Parsed>, out: Outcome): Result<Parsed, LoadError>
    requires out.Ok? ==> out.value < |heap|
  {
    match out
    case Ok(p) => Ok(heap[p])
    case Err(e) => Err(e)
  }

  /**
   Cache refinement.  In every interleaving, with the registry changing underneath,
   every returned call answers what an uncached Load answers, errors included, for the
   contract and chain id the call was made with and the registry at the moment it
   resolved that id.
   */
  lemma AnswersAreUncached(records: Records, chains: map<Key, Chain>, run: seq<Action>)
    requires Legal(LoaderOf(records), Initial(chains), run)
    ensures var s := Final(LoaderOf(records), Initial(chains), run);
            var asked := Observed(LoaderOf(records), chains, run).answered;
            && |asked| == |s.returned|
            && forall i :: 0 <= i < |asked| ==>
                 && asked[i].t == s.returned[i].t
                 && (s.returned[i].out.Ok? ==> s.returned[i].out.value < |s.heap|)
                 && Meaning(s.heap, s.returned[i].out)
                    == LoadSpec((match asked[i].c
                                 case Factory => records.factory
                                 case Safe => records.safe
                                 case SafeL2 => records.safeL2),
                                Resolve(asked[i].chains, asked[i].id))
  {
    var load := LoaderOf(records);
    ObservedSound(load, chains, run);
    var s, asked := Final(load, Initial(chains), run), Observed(load, chains, run).answered;
    forall i | 0 <= i < |asked|
      ensures (s.returned[i].out.Ok? ==> s.returned[i].out.value < |s.heap|)
      ensures Meaning(s.heap, s.returned[i].out) == load(asked[i].Entry())
    {
      assert Settled(load, s, asked[i].Entry(), s.returned[i].out);
    }
  }

  /** The maps are never written while anyone else reads or writes them. */
  lemma NoConcurrentMapAccess(load: Loader, chains: map<Key, Chain>, run: seq<Action>, t: nat, u: nat)
    requires Legal(load, Initial(chains), run)
    requires var s := Final(load, Initial(chains), run);
             At(s, t) && At(s, u) && s.threads[t].Storing?
             && (s.threads[u].Reading? || s.threads[u].Rechecking? || s.threads[u].Storing?)
    ensures t == u
  {
    ObservedSound(load, chains, run);
  }
}
