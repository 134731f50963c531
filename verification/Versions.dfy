/** Loading a contract's deployment record for a chain, and the cache in front of it. */
module Versions {
  import opened Common
  import opened Bytes
  import opened ChainRegistry

  // --------------------------------------------------------------------- records

  /** The parts of a parsed contract ABI the library uses. */
  datatype Interface = Interface(canCreateProxy: bool, proxyCreation: Option<Word>)

  /** A parsed deployment record; an entry's address is None if its text is empty, abi None if it does not parse. */
  datatype Record = Record(
    deployments: map<string, Option<Address>>,
    networks: map<Key, seq<string>>,
    abi: Option<Interface>)

  datatype Parsed = Parsed(address: Address, abi: Interface)

  datatype LoadError = Malformed | ChainUnknown | NoTypes | NoEvmType | TypeUnknown | NoAddress | AbiMalformed

  /** The letters strings.EqualFold identifies with a lower-case letter of "zksync". */
  predicate Folds(c: char, lower: char) {
    || c == lower
    || ('a' <= lower <= 'z' && c == (lower as int - 32) as char)
    || (lower == 'k' && c == '\U{212A}')
    || (lower == 's' && c == '\U{17F}')
  }

  const ZKSYNC := "zksync"

  predicate IsZksync(name: string) {
    |name| == |ZKSYNC| && forall i :: 0 <= i < |name| ==> Folds(name[i], ZKSYNC[i])
  }

  /** Which names are zkSync's: the six letters in either case, or the two other signs that fold to k and s. */
  lemma ZksyncNames(name: string)
    ensures IsZksync(name) <==>
              && |name| == 6
              && (name[0] == 'z' || name[0] == 'Z')
              && (name[1] == 'k' || name[1] == 'K' || name[1] == '\U{212A}')
              && (name[2] == 's' || name[2] == 'S' || name[2] == '\U{17F}')
              && (name[3] == 'y' || name[3] == 'Y')
              && (name[4] == 'n' || name[4] == 'N')
              && (name[5] == 'c' || name[5] == 'C')
  {
    if |name| == 6 {
      assert IsZksync(name) <==>
        && Folds(name[0], ZKSYNC[0]) && Folds(name[1], ZKSYNC[1]) && Folds(name[2], ZKSYNC[2])
        && Folds(name[3], ZKSYNC[3]) && Folds(name[4], ZKSYNC[4]) && Folds(name[5], ZKSYNC[5]);
    }
  }

  // -------------------------------------------------------------------- Load

  /** The first deployment type that is not zkSync's, or "" if there is none. */
  function Preferred(types: seq<string>): string {
    if types == [] then ""
    else if !IsZksync(types[0]) then types[0]
    else Preferred(types[1..])
  }

  function LoadSpec(json: Option<Record>, chainID: Key): Result<Parsed, LoadError> {
    if json.None? then Err(Malformed)
    else
      var d := json.value;
      if chainID !in d.networks then Err(ChainUnknown)
      else if d.networks[chainID] == [] then Err(NoTypes)
      else
        var preferred := Preferred(d.networks[chainID]);
        if preferred == "" then Err(NoEvmType)
        else if preferred !in d.deployments then Err(TypeUnknown)
        else if d.deployments[preferred].None? then Err(NoAddress)
        else if d.abi.None? then Err(AbiMalformed)
        else Ok(Parsed(d.deployments[preferred].value, d.abi.value))
  }

  /** Entry i is the first that is not zkSync's. */
  predicate FirstEvm(types: seq<string>, i: nat) {
    && i < |types| && !IsZksync(types[i])
    && forall j :: 0 <= j < i ==> IsZksync(types[j])
  }

  lemma {:induction false} PreferredIsFirstEvm(types: seq<string>) returns (i: nat)
    ensures i <= |types| && forall j :: 0 <= j < i ==> IsZksync(types[j])
    ensures i < |types| ==> FirstEvm(types, i) && Preferred(types) == types[i]
    ensures i == |types| ==> Preferred(types) == ""
  {
    i := 0;
    if types != [] && IsZksync(types[0]) {
      var later := PreferredIsFirstEvm(types[1..]);
      i := later + 1;
      assert forall j :: 1 <= j < i ==> types[j] == types[1..][j - 1];
    }
  }

  ghost predicate Offers(json: Option<Record>, chainID: Key, p: Parsed) {
    && json.Some? && chainID in json.value.networks
    && exists i: nat :: FirstEvm(json.value.networks[chainID], i)
                     && Describes(json.value, json.value.networks[chainID][i], p)
  }

  predicate Describes(d: Record, name: string, p: Parsed) {
    && name != "" && name in d.deployments
    && d.deployments[name] == Some(p.address) && d.abi == Some(p.abi)
  }

  /**
   Load succeeds with p exactly if the chain's first EVM deployment type is a non-empty
   name with a non-empty address, which p then carries.
   */
  lemma LoadSucceedsExactly(json: Option<Record>, chainID: Key, p: Parsed)
    ensures LoadSpec(json, chainID) == Ok(p) <==> Offers(json, chainID, p)
  {
    if json.Some? && chainID in json.value.networks {
      var types := json.value.networks[chainID];
      var i := PreferredIsFirstEvm(types);
      assert forall k: nat :: FirstEvm(types, k) ==> k == i;
    }
  }

  /** The chain's first EVM deployment type is named name. */
  ghost predicate Prefers(json: Option<Record>, chainID: Key, name: string) {
    && json.Some? && chainID in json.value.networks
    && exists i: nat :: FirstEvm(json.value.networks[chainID], i) && json.value.networks[chainID][i] == name
  }

  /** Load's errors, each exactly when it is given. */
  lemma LoadFailsExactly(json: Option<Record>, chainID: Key)
    ensures var r := LoadSpec(json, chainID);
            && (r == Err(Malformed) <==> json.None?)
            && (r == Err(ChainUnknown) <==> json.Some? && chainID !in json.value.networks)
            && (r == Err(NoTypes) <==>
                  json.Some? && chainID in json.value.networks && json.value.networks[chainID] == [])
            && (r == Err(NoEvmType) <==>
                  json.Some? && chainID in json.value.networks && json.value.networks[chainID] != []
                  && !(exists name :: name != "" && Prefers(json, chainID, name)))
            && (r == Err(TypeUnknown) <==>
                  exists name :: name != "" && Prefers(json, chainID, name) && name !in json.value.deployments)
            && (r == Err(NoAddress) <==>
                  exists name :: name != "" && Prefers(json, chainID, name)
                              && name in json.value.deployments && json.value.deployments[name].None?)
            && (r == Err(AbiMalformed) <==>
                  exists name :: name != "" && Prefers(json, chainID, name) && name in json.value.deployments
                              && json.value.deployments[name].Some? && json.value.abi.None?)
  {
    if json.Some? && chainID in json.value.networks {
      var types := json.value.networks[chainID];
      var i := PreferredIsFirstEvm(types);
      assert forall k: nat :: FirstEvm(types, k) ==> k == i;
      if i < |types| {
        assert Prefers(json, chainID, types[i]);
      }
      assert forall name :: Prefers(json, chainID, name) ==> i < |types| && name == types[i];
    }
  }

  method Load(json: Option<Record>, chainID: Key) returns (r: Result<Parsed, LoadError>)
    ensures r == LoadSpec(json, chainID)
  {
    if json.None? {
      return Err(Malformed);
    }
    var d := json.value;
    if chainID !in d.networks {
      return Err(ChainUnknown);
    }
    var types := d.networks[chainID];
    if |types| == 0 {
      return Err(NoTypes);
    }
    var preferred := "";
    var i := 0;
    while i < |types|
      invariant 0 <= i <= |types| && preferred == ""
      invariant Preferred(types) == Preferred(types[i..])
    {
      if !IsZksync(types[i]) {
        preferred := types[i];
        break;
      }
      i := i + 1;
    }
    if preferred == "" {
      return Err(NoEvmType);
    }
    if preferred !in d.deployments {
      return Err(TypeUnknown);
    }
    if d.deployments[preferred].None? {
      return Err(NoAddress);
    }
    if d.abi.None? {
      return Err(AbiMalformed);
    }
    return Ok(Parsed(d.deployments[preferred].value, d.abi.value));
  }

  // ---------------------------------------------------------------- the cache

  /** Which of a deployment's three records, and of its three caches. */
  datatype Contract = Factory | Safe | SafeL2

  datatype Records = Records(factory: Option<Record>, safe: Option<Record>, safeL2: Option<Record>) {
    function Of(c: Contract): Option<Record> {
      match c
      case Factory => factory
      case Safe => safe
      case SafeL2 => safeL2
    }
  }

  /** The uncached answer: load the contract's record for the chain id currently used for id. */
  function Uncached(records: Records, chains: map<Key, Chain>, c: Contract, id: Key): Result<Parsed, LoadError> {
    LoadSpec(records.Of(c), Resolve(chains, id))
  }

  function SingletonOf(isL2: bool): Contract {
    if isL2 then SafeL2 else Safe
  }

  class ParsedDeployment {
    const value: Parsed

    constructor (value: Parsed)
      ensures this.value == value
    {
      this.value := value;
    }
  }

  /** An entry that another goroutine stores. */
  datatype Entry = Entry(c: Contract, key: Key, p: ParsedDeployment)

  /** cache, the one for c, after others have stored what was absent. */
  function Added(cache: map<Key, ParsedDeployment>, c: Contract, others: seq<Entry>): map<Key, ParsedDeployment> {
    if others == [] then cache
    else
      var before, o := Added(cache, c, others[..|others| - 1]), others[|others| - 1];
      if o.c == c && o.key !in before then before[o.key := o.p] else before
  }

  class BaseDeployment {
    const records: Records
    const proxyCreationCode: Bytes
    const registry: Registry
    var factory: map<Key, ParsedDeployment>
    var safe: map<Key, ParsedDeployment>
    var safeL2: map<Key, ParsedDeployment>

    function Cache(c: Contract): map<Key, ParsedDeployment>
      reads this
    {
      match c
      case Factory => factory
      case Safe => safe
      case SafeL2 => safeL2
    }

    /** Every cached entry is what Load returns for that contract and chain id. */
    ghost predicate Valid()
      reads this
    {
      forall c, key :: key in Cache(c) ==> LoadSpec(records.Of(c), key) == Ok(Cache(c)[key].value)
    }

    constructor (records: Records, proxyCreationCode: Bytes, registry: Registry)
      ensures this.records == records && this.proxyCreationCode == proxyCreationCode && this.registry == registry
      ensures Valid() && forall c :: Cache(c) == map[]
    {
      this.records, this.proxyCreationCode, this.registry := records, proxyCreationCode, registry;
      factory, safe, safeL2 := map[], map[], map[];
    }

    method ResolveChainID(id: Key) returns (r: Key)
      requires registry.Valid()
      ensures r == Resolve(registry.chains, id)
      ensures id in registry.chains && registry.chains[id].forksChainID.Some? ==>
                r == registry.chains[id].forksChainID
      ensures !(id in registry.chains && registry.chains[id].forksChainID.Some?) ==> r == id
    {
      var c := registry.Lookup(id);
      if c.Err? {
        return id;
      }
      if c.value.forksChainID.Some? {
        return c.value.forksChainID;
      }
      return c.value.id;
    }

    method Store(c: Contract, key: Key, p: ParsedDeployment)
      requires Valid() && key !in Cache(c) && LoadSpec(records.Of(c), key) == Ok(p.value)
      modifies this
      ensures Valid() && Cache(c) == old(Cache(c))[key := p]
      ensures forall d :: d != c ==> Cache(d) == old(Cache(d))
    {
      match c {
        case Factory => factory := factory[key := p];
        case Safe => safe := safe[key := p];
        case SafeL2 => safeL2 := safeL2[key := p];
      }
    }

    /** Every entry of others is what Load returns for it. */
    ghost predicate Loaded(others: seq<Entry>) {
      forall i :: 0 <= i < |others| ==>
        LoadSpec(records.Of(others[i].c), others[i].key) == Ok(others[i].p.value)
    }

    /** Other goroutines get the write lock in turn, look again and store. */
    method Interfere(others: seq<Entry>)
      requires Valid() && Loaded(others)
      modifies this
      ensures Valid()
      ensures forall d :: Cache(d) == Added(old(Cache(d)), d, others)
    {
      for n := 0 to |others|
        invariant Valid()
        invariant forall d :: Cache(d) == Added(old(Cache(d)), d, others[..n])
      {
        var o := others[n];
        assert others[..n + 1][..n] == others[..n];
        if o.key !in Cache(o.c) {
          Store(o.c, o.key, o.p);
        }
      }
      assert others[..|others|] == others;
    }

    /**
     The answer is Load's; a hit returns the very object stored; only a successful miss
     adds an entry.  `others` is what other goroutines store, in any of the maps, after
     this one has dropped the read lock and before it gets the write lock.
     */
    method LoadCached(c: Contract, key: Key, others: seq<Entry>)
      returns (p: ParsedDeployment?, e: Option<LoadError>)
      requires Valid() && Loaded(others)
      modifies this
      ensures Valid()
      ensures Gives(LoadSpec(records.Of(c), key), p, e)
      ensures key in old(Cache(c)) ==> p == old(Cache(c))[key] && forall d :: Cache(d) == old(Cache(d))
      ensures key !in old(Cache(c)) ==>
                var found := Added(old(Cache(c)), c, others);
                && (key in found ==> p == found[key])
                && (key !in found && p != null ==> fresh(p))
                && Cache(c) == (if p == null then found else found[key := p])
                && forall d :: d != c ==> Cache(d) == Added(old(Cache(d)), d, others)
    {
      if key in Cache(c) {
        return Cache(c)[key], None;
      }
      Interfere(others);
      if key in Cache(c) {
        return Cache(c)[key], None;
      }
      var parsed := Load(records.Of(c), key);
      if parsed.Err? {
        return null, Some(parsed.error);
      }
      p := new ParsedDeployment(parsed.value);
      Store(c, key, p);
      e := None;
    }

    method ProxyFactory(id: Key) returns (p: ParsedDeployment?, e: Option<LoadError>)
      requires Valid() && registry.Valid()
      modifies this
      ensures Valid()
      ensures Gives(LoadSpec(records.factory, Resolve(registry.chains, id)), p, e)
      ensures safe == old(safe) && safeL2 == old(safeL2)
    {
      var key := ResolveChainID(id);
      p, e := LoadCached(Factory, key, []);
      assert Cache(Safe) == old(Cache(Safe)) && Cache(SafeL2) == old(Cache(SafeL2));
    }

    method Singleton(id: Key, isL2: bool) returns (p: ParsedDeployment?, e: Option<LoadError>)
      requires Valid() && registry.Valid()
      modifies this
      ensures Valid()
      ensures isL2 ==> Gives(LoadSpec(records.safeL2, Resolve(registry.chains, id)), p, e)
      ensures !isL2 ==> Gives(LoadSpec(records.safe, Resolve(registry.chains, id)), p, e)
      ensures factory == old(factory) && (if isL2 then safe == old(safe) else safeL2 == old(safeL2))
    {
      var key := ResolveChainID(id);
      if isL2 {
        p, e := LoadCached(SafeL2, key, []);
        assert Cache(Factory) == old(Cache(Factory)) && Cache(Safe) == old(Cache(Safe));
        return;
      }
      p, e := LoadCached(Safe, key, []);
      assert Cache(Factory) == old(Cache(Factory)) && Cache(SafeL2) == old(Cache(SafeL2));
    }

    /** The pointer and error returned stand for the answer. */
    predicate Gives(answer: Result<Parsed, LoadError>, p: ParsedDeployment?, e: Option<LoadError>) {
      match answer
      case Ok(v) => p != null && p.value == v && e.None?
      case Err(x) => p == null && e == Some(x)
    }
  }
}
