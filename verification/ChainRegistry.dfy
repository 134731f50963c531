/** The registry of chains: a map that Register, Fork and Deregister change. */
module ChainRegistry {
  import opened Common

  /** A chain id as the registry prints it: nil prints as a text no number prints as. */
  type Key = Option<int>

  datatype Chain = Chain(id: Option<int>, name: string, isL2: bool, forksChainID: Option<int>)

  datatype RegistryError = NilChain | NilID | EmptyName | NotRegistered

  /** unicode.IsSpace. */
  predicate IsSpace(c: char) {
    || '\t' <= c <= '\r' || c == ' ' || c == '\U{85}' || c == '\U{A0}' || c == '\U{1680}'
    || '\U{2000}' <= c <= '\U{200A}' || c == '\U{2028}' || c == '\U{2029}'
    || c == '\U{202F}' || c == '\U{205F}' || c == '\U{3000}'
  }

  /** strings.TrimSpace. */
  function TrimSpace(name: string): string
    decreases |name|
  {
    if name == [] then ""
    else if IsSpace(name[0]) then TrimSpace(name[1..])
    else if IsSpace(name[|name| - 1]) then TrimSpace(name[..|name| - 1])
    else name
  }

  /** A name is refused exactly if nothing in it is visible. */
  lemma {:induction false} BlankIsAllSpace(name: string)
    ensures TrimSpace(name) == "" <==> forall i :: 0 <= i < |name| ==> IsSpace(name[i])
    decreases |name|
  {
    if name != [] {
      if IsSpace(name[0]) {
        BlankIsAllSpace(name[1..]);
        assert forall i :: 1 <= i < |name| ==> name[i] == name[1..][i - 1];
      } else {
        assert !IsSpace(name[0]);
        if IsSpace(name[|name| - 1]) {
          BlankIsAllSpace(name[..|name| - 1]);
        }
      }
    }
  }

  /** Every chain is stored under its own id. */
  predicate Keyed(chains: map<Key, Chain>) {
    forall k :: k in chains ==> k.Some? && chains[k].id == k
  }

  /** The chain id whose contract addresses are used for id. */
  function Resolve(chains: map<Key, Chain>, id: Key): Key {
    if id.None? || id !in chains then id
    else if chains[id].forksChainID.Some? then chains[id].forksChainID
    else chains[id].id
  }

  class Registry {
    var chains: map<Key, Chain>

    ghost predicate Valid()
      reads this
    {
      Keyed(chains)
    }

    /** Starts with the built-in chains; a later one with the same id replaces an earlier one. */
    constructor (known: seq<Chain>)
      requires forall i :: 0 <= i < |known| ==> known[i].id.Some?
      ensures Valid()
      ensures forall k :: k in chains <==> exists i :: 0 <= i < |known| && known[i].id == k
      ensures forall k :: k in chains ==> chains[k] in known
    {
      chains := map[];
      new;
      for n := 0 to |known|
        invariant Valid()
        invariant forall k :: k in chains <==> exists i :: 0 <= i < n && known[i].id == k
        invariant forall k :: k in chains ==> chains[k] in known
      {
        chains := chains[known[n].id := known[n]];
      }
    }

    method Register(c: Option<Chain>) returns (r: Result<(), RegistryError>)
      requires Valid()
      modifies this
      ensures Valid()
      ensures r.Ok? <==> c.Some? && c.value.id.Some? && TrimSpace(c.value.name) != ""
      ensures r == Err(NilChain) <==> c.None?
      ensures r == Err(NilID) <==> c.Some? && c.value.id.None?
      ensures chains == if r.Ok? then old(chains)[c.value.id := c.value] else old(chains)
      ensures r.Ok? && c.value.forksChainID.Some? ==> Resolve(chains, c.value.id) == c.value.forksChainID
      ensures r.Ok? && c.value.forksChainID.None? ==> Resolve(chains, c.value.id) == c.value.id
    {
      if c.None? {
        return Err(NilChain);
      }
      if c.value.id.None? {
        return Err(NilID);
      }
      if TrimSpace(c.value.name) == "" {
        return Err(EmptyName);
      }
      chains := chains[c.value.id := c.value];
      return Ok(());
    }

    method Lookup(id: Key) returns (r: Result<Chain, RegistryError>)
      requires Valid()
      ensures r.Ok? <==> id in chains
      ensures r.Ok? ==> r.value == chains[id] && r.value.id == id
    {
      if id.None? || id !in chains {
        return Err(NotRegistered);
      }
      return Ok(chains[id]);
    }

    /** c is registered with source's contract addresses; whatever c forked before is forgotten. */
    method Fork(c: Chain, source: Chain) returns (r: Result<Chain, RegistryError>)
      requires Valid()
      modifies this
      ensures Valid()
      ensures r.Ok? <==> c.id.Some? && TrimSpace(c.name) != ""
      ensures r.Ok? ==> r.value == c.(forksChainID := source.id)
      ensures r == Err(NilID) <==> c.id.None?
      ensures chains == if r.Ok? then old(chains)[c.id := r.value] else old(chains)
      ensures r.Ok? && source.id.Some? ==> Resolve(chains, c.id) == source.id
    {
      var forked := c.(forksChainID := source.id);
      var registered := Register(Some(forked));
      if registered.Err? {
        return Err(registered.error);
      }
      return Ok(forked);
    }

    method Deregister(id: Key)
      requires Valid()
      modifies this
      ensures Valid()
      ensures chains == old(chains) - {id}
      ensures Resolve(chains, id) == id
    {
      chains := chains - {id};
    }
  }
}
