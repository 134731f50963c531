/** The address a Safe will be deployed to, computed without asking the chain. */
module Predict {
  import opened Common
  import opened Bytes
  import opened Abi
  import opened ChainRegistry
  import opened Versions

  /** Keccak-256 as an arbitrary function to words: nothing else about it is used. */
  type Keccak = Bytes -> Word

  type uint8 = n: int | 0 <= n < 256

  datatype Input = Input(owners: seq<Address>, threshold: uint8, salt: Bytes)

  /** What a versioned deployment offers for prediction, with the registry it resolves chains in. */
  datatype Deployment = Deployment(records: Records, chains: map<Key, Chain>, creationCode: Bytes) {

    function ProxyFactory(id: Key): (r: Result<Parsed, LoadError>)
      ensures r == LoadSpec(records.factory, Resolve(chains, id))
    {
      Uncached(records, chains, Factory, id)
    }

    function Singleton(id: Key, isL2: bool): (r: Result<Parsed, LoadError>)
      ensures isL2 ==> r == LoadSpec(records.safeL2, Resolve(chains, id))
      ensures !isL2 ==> r == LoadSpec(records.safe, Resolve(chains, id))
    {
      Uncached(records, chains, SingletonOf(isL2), id)
    }
  }

  // --------------------------------------------------------------- initializer

  /** The bytes of a text of ASCII characters. */
  function Ascii(s: string): (r: Bytes)
    ensures |r| == |s| && forall i :: 0 <= i < |s| && s[i] < 128 as char ==> r[i] == s[i] as int
  {
    seq(|s|, i requires 0 <= i < |s| => s[i] as int % 256)
  }

  /** A function is called by the first four bytes of its signature's hash. */
  function Selector(keccak: Keccak, signature: string): (r: Bytes)
    ensures |r| == 4
  {
    keccak(Ascii(signature))[..4]
  }

  const SETUP := "setup(address[],uint256,address,bytes,address,address,uint256,address)"

  const ZERO_ADDRESS: Address := Zeros(20)

  function SetupArgs(owners: seq<Address>, threshold: uint8): seq<Value> {
    [Addrs(owners), Uint(threshold), Addr(ZERO_ADDRESS), Blob([]),
     Addr(ZERO_ADDRESS), Addr(ZERO_ADDRESS), Uint(0), Addr(ZERO_ADDRESS)]
  }

  function BuildInitializer(keccak: Keccak, owners: seq<Address>, threshold: uint8): Bytes {
    Selector(keccak, SETUP) + Encode(SetupArgs(owners, threshold))
  }

  const SETUP_TYPES := [AddressesT, UintT, AddressT, BytesT, AddressT, AddressT, UintT, AddressT]

  /** The parameters of setup, in the order of its signature. */
  datatype Setup = Setup(
    owners: seq<Address>,
    threshold: nat,
    to: Address,
    data: Bytes,
    fallbackHandler: Address,
    paymentToken: Address,
    payment: nat,
    paymentReceiver: Address)

  /** What the proxy's setup function reads from its calldata. */
  function DecodeSetup(keccak: Keccak, data: Bytes): Option<Setup> {
    if |data| < 4 || data[..4] != Selector(keccak, SETUP) then None
    else
      match Decode(SETUP_TYPES, data[4..])
      case None => None
      case Some(args) => SetupFrom(args)
  }

  function SetupFrom(args: seq<Value>): Option<Setup> {
    if && |args| == 8 && args[0].Addrs? && args[1].Uint? && args[2].Addr? && args[3].Blob?
       && args[4].Addr? && args[5].Addr? && args[6].Uint? && args[7].Addr?
    then Some(Setup(args[0].owners, args[1].n, args[2].a, args[3].b, args[4].a, args[5].a, args[6].n, args[7].a))
    else None
  }

  /** Go's slices are shorter than this. */
  predicate SliceLength(n: nat) {
    n < TWO_64
  }

  lemma SetupHeads(owners: seq<Address>, threshold: uint8)
    ensures |Encode(SetupArgs(owners, threshold))| == 320 + 32 * |owners|
    ensures Types(SetupArgs(owners, threshold)) == SETUP_TYPES
  {
    var vs := SetupArgs(owners, threshold);
    assert |Body(vs[0])| == 32 + 32 * |owners|;
    assert |Body(vs[3])| == 32;
    TailsSkip(vs, 4);
    assert vs[1..][1..][1..] == vs[3..] && vs[3..][0] == vs[3] && vs[3..][1..] == vs[4..];
    assert Tails(vs[3..]) == Body(vs[3]) + Tails(vs[4..]);
    assert Tails(vs[1..]) == Tails(vs[3..]);
  }

  lemma {:induction false} TailsSkip(vs: seq<Value>, from: nat)
    requires from <= |vs| && forall i :: from <= i < |vs| ==> !vs[i].Dynamic()
    ensures Tails(vs[from..]) == []
    decreases |vs| - from
  {
    if from < |vs| {
      assert vs[from..][1..] == vs[from + 1..];
      TailsSkip(vs, from + 1);
    }
  }

  /** setup reads back exactly the owners and the threshold, and zeros and empty data for the rest. */
  lemma InitializerRoundTrip(keccak: Keccak, owners: seq<Address>, threshold: uint8)
    requires SliceLength(|owners|)
    ensures var read := DecodeSetup(keccak, BuildInitializer(keccak, owners, threshold));
            && read.Some?
            && read.value.owners == owners && read.value.threshold == threshold
            && read.value.data == [] && read.value.payment == 0
            && read.value.to == Zeros(20) && read.value.fallbackHandler == Zeros(20)
            && read.value.paymentToken == Zeros(20) && read.value.paymentReceiver == Zeros(20)
    ensures |BuildInitializer(keccak, owners, threshold)| == 324 + 32 * |owners|
  {
    var data := BuildInitializer(keccak, owners, threshold);
    assert data[..4] == Selector(keccak, SETUP);
    assert data[4..] == Encode(SetupArgs(owners, threshold));
    SetupHeads(owners, threshold);
    RoundTrip(SetupArgs(owners, threshold));
  }

  /** Different owners or thresholds never share an initializer. */
  lemma InitializerInjective(keccak: Keccak, owners: seq<Address>, threshold: uint8,
                             owners': seq<Address>, threshold': uint8)
    requires SliceLength(|owners|) && SliceLength(|owners'|)
    requires BuildInitializer(keccak, owners, threshold) == BuildInitializer(keccak, owners', threshold')
    ensures owners == owners' && threshold == threshold'
  {
    InitializerRoundTrip(keccak, owners, threshold);
    InitializerRoundTrip(keccak, owners', threshold');
  }

  predicate IsZero(v: Value) {
    v == Uint(0) || v == Addr(ZERO_ADDRESS)
  }

  lemma {:induction false} ZeroHeads(vs: seq<Value>, offset: nat)
    requires forall i :: 0 <= i < |vs| ==> IsZero(vs[i])
    ensures Heads(vs, offset) == Zeros(32 * |vs|) && Tails(vs) == []
  {
    if vs != [] {
      ZeroIsZeros(32);
      ZeroHeads(vs[1..], offset);
      assert IsZero(vs[0]) && Static(vs[0]) == Zeros(32);
    }
  }

  /** setup's last five arguments, the empty data first. */
  lemma DataAndBeyond(offset: nat)
    ensures var rest := SetupArgs([], 0)[3..];
            Heads(rest, offset) == BigEndian(offset, 32) + Zeros(128) && Tails(rest) == Zeros(32)
  {
    var zeros := SetupArgs([], 0)[4..];
    ZeroIsZeros(32);
    assert Body(Blob([])) == Zeros(32);
    assert SetupArgs([], 0)[3..] == [Blob([])] + zeros;
    FirstHead(Blob([]), zeros, offset);
    ZeroHeads(zeros, offset + 32);
  }

  /** The arguments of setup behind the owners. */
  lemma BehindOwners(threshold: uint8, offset: nat)
    ensures var rest := SetupArgs([], threshold)[1..];
            && Heads(rest, offset) == BigEndian(threshold, 32) + (Zeros(32) + (BigEndian(offset, 32) + Zeros(128)))
            && Tails(rest) == Zeros(32)
  {
    var data := SetupArgs([], 0)[3..];
    var to := [Addr(ZERO_ADDRESS)] + data;
    assert SetupArgs([], threshold)[1..] == [Uint(threshold)] + to;
    DataAndBeyond(offset);
    assert PadAddress(ZERO_ADDRESS) == Zeros(32);
    FirstHead(Addr(ZERO_ADDRESS), data, offset);
    FirstHead(Uint(threshold), to, offset);
  }

  /**
   The initializer, byte by byte: the selector; the offset 0x100 of the owners, the
   threshold, no target, the offset of the data behind the owners, and four zero words;
   the number of owners and the owners; and the length 0 of the data.
   */
  lemma InitializerLayout(keccak: Keccak, owners: seq<Address>, threshold: uint8)
    ensures BuildInitializer(keccak, owners, threshold)
         == keccak(Ascii("setup(address[],uint256,address,bytes,address,address,uint256,address)"))[..4]
          + (((BigEndian(0x100, 32)
               + (BigEndian(threshold, 32) + (Zeros(32) + (BigEndian(0x120 + 32 * |owners|, 32) + Zeros(128)))))
              + ((BigEndian(|owners|, 32) + Words(owners)) + Zeros(32))))
  {
    var rest := SetupArgs([], threshold)[1..];
    assert SetupArgs(owners, threshold) == [Addrs(owners)] + rest;
    OwnersFirst(owners, rest);
    BehindOwners(threshold, 0x120 + 32 * |owners|);
  }

  lemma OwnersFirst(owners: seq<Address>, rest: seq<Value>)
    requires |rest| == 7
    ensures Encode([Addrs(owners)] + rest)
         == (BigEndian(0x100, 32) + Heads(rest, 0x120 + 32 * |owners|))
          + ((BigEndian(|owners|, 32) + Words(owners)) + Tails(rest))
  {
    var first := Addrs(owners);
    FirstHead(first, rest, 0x100);
    assert |Body(first)| == 32 + 32 * |owners|;
    assert Encode([first] + rest) == Heads([first] + rest, 0x100) + Tails([first] + rest);
  }

  lemma {:induction false} OwnerWord(owners: seq<Address>, i: nat)
    requires i < |owners|
    ensures Words(owners)[32 * i..32 * i + 32] == Zeros(12) + owners[i]
  {
    if i > 0 {
      OwnerWord(owners[1..], i - 1);
      assert Words(owners)[32 * i..32 * i + 32] == Words(owners[1..])[32 * (i - 1)..32 * (i - 1) + 32];
    }
  }

  // ------------------------------------------------------------------- address

  function SaltNonce(keccak: Keccak, salt: Bytes): Word {
    keccak(salt)
  }

  function Salt(keccak: Keccak, initializer: Bytes, saltNonce: Word): Word {
    keccak(keccak(initializer) + saltNonce)
  }

  function InitCode(creationCode: Bytes, singleton: Address): Bytes {
    creationCode + PadAddress(singleton)
  }

  function Create2Preimage(keccak: Keccak, creator: Address, salt: Word, initCode: Bytes): Bytes {
    [0xff] + creator + salt + keccak(initCode)
  }

  /** EIP-1014: the last 20 bytes of keccak(0xff ++ creator ++ salt ++ keccak(initCode)). */
  function Create2(keccak: Keccak, creator: Address, salt: Word, initCode: Bytes): Address {
    keccak(Create2Preimage(keccak, creator, salt, initCode))[12..]
  }

  /** copy(dst[at:], src). */
  method Copy(dst: array<byte>, at: nat, src: Bytes)
    requires at + |src| <= dst.Length
    modifies dst
    ensures dst[..] == old(dst[..at]) + src + old(dst[at + |src|..])
  {
    forall i | 0 <= i < |src| {
      dst[at + i] := src[i];
    }
  }

  method DeriveSaltNonce(keccak: Keccak, salt: Bytes) returns (nonce: array<byte>)
    ensures fresh(nonce) && nonce[..] == keccak(salt) && nonce[..] == SaltNonce(keccak, salt)
  {
    nonce := new byte[32](_ => 0);
    var hash := keccak(salt);
    Copy(nonce, 0, hash);
  }

  method BuildInitCode(creationCode: Bytes, singleton: Address) returns (initCode: array<byte>)
    ensures fresh(initCode) && initCode[..] == creationCode + (Zeros(12) + singleton)
    ensures initCode[..] == InitCode(creationCode, singleton)
  {
    var padded := PadAddress(singleton);
    initCode := new byte[|creationCode| + |padded|](_ => 0);
    Copy(initCode, 0, creationCode);
    assert initCode[..|creationCode|] == creationCode;
    Copy(initCode, |creationCode|, padded);
  }

  datatype PredictError = NilChainID | NoFactory(e: LoadError) | NoSingleton(e: LoadError)

  function AddressFor(keccak: Keccak, input: Input, factory: Address, singleton: Address, creationCode: Bytes): Address {
    var initializer := BuildInitializer(keccak, input.owners, input.threshold);
    var salt := Salt(keccak, initializer, SaltNonce(keccak, input.salt));
    Create2(keccak, factory, salt, InitCode(creationCode, singleton))
  }

  function PredictAddress(keccak: Keccak, input: Input, d: Deployment, chainID: Key, isL2: bool)
    : Result<Address, PredictError>
  {
    if chainID.None? then Err(NilChainID)
    else
      match d.ProxyFactory(chainID)
      case Err(e) => Err(NoFactory(e))
      case Ok(factory) =>
        match d.Singleton(chainID, isL2)
        case Err(e) => Err(NoSingleton(e))
        case Ok(singleton) =>
          Ok(AddressFor(keccak, input, factory.address, singleton.address, d.creationCode))
  }

  /**
   Prediction fails for a nil chain id, and otherwise exactly if one of the two records it
   needs does not load: the factory's first, then the singleton's, which the flag selects.
   */
  lemma PredictionFailsExactly(keccak: Keccak, input: Input, d: Deployment, chainID: Key, isL2: bool)
    ensures var r, id := PredictAddress(keccak, input, d, chainID, isL2), Resolve(d.chains, chainID);
            var factory := LoadSpec(d.records.factory, id);
            var singleton := LoadSpec(if isL2 then d.records.safeL2 else d.records.safe, id);
            && (r == Err(NilChainID) <==> chainID.None?)
            && (forall e :: r == Err(NoFactory(e)) <==> chainID.Some? && factory == Err(e))
            && (forall e :: r == Err(NoSingleton(e)) <==> chainID.Some? && factory.Ok? && singleton == Err(e))
            && (r.Ok? <==> chainID.Some? && factory.Ok? && singleton.Ok?)
  {
  }

  // ---------------------------------------------------------------- collisions

  /** x and y are a collision of keccak, or of the 20 bytes of it an address keeps. */
  predicate Collide(keccak: Keccak, x: Bytes, y: Bytes) {
    x != y && keccak(x)[12..] == keccak(y)[12..]
  }

  /** The pair of byte strings at which the computations of two equal addresses first meet. */
  function Collision(keccak: Keccak, a: Input, b: Input, factory: Address, initCode: Bytes): (Bytes, Bytes) {
    var initA := BuildInitializer(keccak, a.owners, a.threshold);
    var initB := BuildInitializer(keccak, b.owners, b.threshold);
    var nonceA, nonceB := SaltNonce(keccak, a.salt), SaltNonce(keccak, b.salt);
    var saltA, saltB := Salt(keccak, initA, nonceA), Salt(keccak, initB, nonceB);
    if saltA != saltB then
      (Create2Preimage(keccak, factory, saltA, initCode), Create2Preimage(keccak, factory, saltB, initCode))
    else if keccak(initA) + nonceA != keccak(initB) + nonceB then
      (keccak(initA) + nonceA, keccak(initB) + nonceB)
    else if initA != initB then (initA, initB)
    else (a.salt, b.salt)
  }

  /**
   Collision extraction.  If two different inputs are predicted at the same address, the
   pair above is two different byte strings with the same hash, or, where the two salts
   already differ, with hashes that agree on the 20 bytes of an address.
   */
  lemma SameAddressMeansCollision(keccak: Keccak, a: Input, b: Input, factory: Address, singleton: Address, code: Bytes)
    requires SliceLength(|a.owners|) && SliceLength(|b.owners|) && a != b
    requires AddressFor(keccak, a, factory, singleton, code) == AddressFor(keccak, b, factory, singleton, code)
    ensures var (x, y) := Collision(keccak, a, b, factory, InitCode(code, singleton));
            Collide(keccak, x, y) && (keccak(x) == keccak(y) || |x| == |y| == 85)
  {
    var initA := BuildInitializer(keccak, a.owners, a.threshold);
    var initB := BuildInitializer(keccak, b.owners, b.threshold);
    var nonceA, nonceB := SaltNonce(keccak, a.salt), SaltNonce(keccak, b.salt);
    var saltA, saltB := Salt(keccak, initA, nonceA), Salt(keccak, initB, nonceB);
    var h := InitCode(code, singleton);
    if saltA != saltB {
      assert Create2Preimage(keccak, factory, saltA, h)[21..53] == saltA;
      assert Create2Preimage(keccak, factory, saltB, h)[21..53] == saltB;
    } else if keccak(initA) + nonceA == keccak(initB) + nonceB {
      assert (keccak(initA) + nonceA)[..32] == keccak(initA);
      assert (keccak(initB) + nonceB)[..32] == keccak(initB);
      assert (keccak(initA) + nonceA)[32..] == nonceA;
      assert (keccak(initB) + nonceB)[32..] == nonceB;
      if initA == initB {
        InitializerInjective(keccak, a.owners, a.threshold, b.owners, b.threshold);
      }
    }
  }

  /**
   The same for prediction under one deployment, chain and L2 flag: the pair that collides
   is the one computed from the two inputs and the deployment's factory and singleton.
   */
  lemma PredictionsCollideOnlyWithKeccak(keccak: Keccak, a: Input, b: Input, d: Deployment, chainID: Key, isL2: bool)
    requires SliceLength(|a.owners|) && SliceLength(|b.owners|) && a != b
    requires PredictAddress(keccak, a, d, chainID, isL2).Ok?
    requires PredictAddress(keccak, a, d, chainID, isL2) == PredictAddress(keccak, b, d, chainID, isL2)
    ensures d.ProxyFactory(chainID).Ok? && d.Singleton(chainID, isL2).Ok?
    ensures var factory, singleton := d.ProxyFactory(chainID).value.address, d.Singleton(chainID, isL2).value.address;
            var (x, y) := Collision(keccak, a, b, factory, InitCode(d.creationCode, singleton));
            Collide(keccak, x, y) && (keccak(x) == keccak(y) || |x| == |y| == 85)
  {
    SameAddressMeansCollision(keccak, a, b, d.ProxyFactory(chainID).value.address,
                              d.Singleton(chainID, isL2).value.address, d.creationCode);
  }
}
