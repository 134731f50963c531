/**
 The deployment transaction and its receipt: the calldata sent to the proxy factory,
 what the factory does with it, and how the deployed address is read back and checked.
 */
module Deploy {
  import opened Common
  import opened Bytes
  import opened Abi
  import opened ChainRegistry
  import opened Versions
  import opened Predict

  const CREATE := "createProxyWithNonce(address,bytes,uint256)"

  datatype CalldataError = NoFactoryFor(e: LoadError) | NoSingletonFor(e: LoadError) | CannotPack

  function CreateArgs(singleton: Address, initializer: Bytes, saltNonce: nat): seq<Value> {
    [Addr(singleton), Blob(initializer), Uint(saltNonce)]
  }

  function CreateCall(keccak: Keccak, singleton: Address, initializer: Bytes, saltNonce: nat): Bytes {
    Selector(keccak, CREATE) + Encode(CreateArgs(singleton, initializer, saltNonce))
  }

  function BuildCalldata(keccak: Keccak, input: Input, d: Deployment, chainID: Key, isL2: bool)
    : Result<Bytes, CalldataError>
  {
    match d.ProxyFactory(chainID)
    case Err(e) => Err(NoFactoryFor(e))
    case Ok(factory) =>
      match d.Singleton(chainID, isL2)
      case Err(e) => Err(NoSingletonFor(e))
      case Ok(singleton) =>
        if !factory.abi.canCreateProxy then Err(CannotPack)
        else
          var initializer := BuildInitializer(keccak, input.owners, input.threshold);
          var saltNonce := FromBigEndian(SaltNonce(keccak, input.salt));
          Ok(CreateCall(keccak, singleton.address, initializer, saltNonce))
  }

  /** Calldata cannot be built exactly if a record does not load, the factory's first, or has no such method. */
  lemma CalldataFailsExactly(keccak: Keccak, input: Input, d: Deployment, chainID: Key, isL2: bool)
    ensures var r, id := BuildCalldata(keccak, input, d, chainID, isL2), Resolve(d.chains, chainID);
            var factory := LoadSpec(d.records.factory, id);
            var singleton := LoadSpec(if isL2 then d.records.safeL2 else d.records.safe, id);
            && (forall e :: r == Err(NoFactoryFor(e)) <==> factory == Err(e))
            && (forall e :: r == Err(NoSingletonFor(e)) <==> factory.Ok? && singleton == Err(e))
            && (r == Err(CannotPack) <==> factory.Ok? && singleton.Ok? && !factory.value.abi.canCreateProxy)
  {
  }

  lemma ArgsLayout(singleton: Address, initializer: Bytes, saltNonce: nat)
    ensures Encode(CreateArgs(singleton, initializer, saltNonce))
         == ((Zeros(12) + singleton) + (BigEndian(0x60, 32) + BigEndian(saltNonce, 32)))
          + (BigEndian(|initializer|, 32) + (initializer + Zeros((32 - |initializer| % 32) % 32)))
  {
    var last := [Uint(saltNonce)];
    var rest := [Blob(initializer)] + last;
    var end := 96 + |Body(Blob(initializer))|;
    assert CreateArgs(singleton, initializer, saltNonce) == [Addr(singleton)] + rest;
    FirstHead(Addr(singleton), rest, 96);
    FirstHead(Blob(initializer), last, 96);
    FirstHead(last[0], [], end);
    assert last == [last[0]] + [];
    assert Heads(last, end) == BigEndian(saltNonce, 32);
    assert Tails(rest) == Body(Blob(initializer));
  }

  /**
   The calldata, byte by byte: the selector; the singleton, the offset 0x60 of the
   initializer and the hash of the salt; the initializer's length, the initializer, and
   zeros up to a whole word.
   */
  lemma CalldataLayout(keccak: Keccak, input: Input, d: Deployment, chainID: Key, isL2: bool)
    requires BuildCalldata(keccak, input, d, chainID, isL2).Ok?
    ensures var data, singleton := BuildCalldata(keccak, input, d, chainID, isL2).value, d.Singleton(chainID, isL2);
            var initializer := BuildInitializer(keccak, input.owners, input.threshold);
            && singleton.Ok?
            && data == keccak(Ascii("createProxyWithNonce(address,bytes,uint256)"))[..4]
                     + (((Zeros(12) + singleton.value.address) + (BigEndian(0x60, 32) + keccak(input.salt)))
                        + (BigEndian(|initializer|, 32) + (initializer + Zeros((32 - |initializer| % 32) % 32))))
  {
    var singleton := d.Singleton(chainID, isL2).value.address;
    var initializer := BuildInitializer(keccak, input.owners, input.threshold);
    var nonce := SaltNonce(keccak, input.salt);
    SaltNonceRoundTrip(nonce);
    ArgsLayout(singleton, initializer, FromBigEndian(nonce));
  }

  /** Behind the selector the calldata consists of whole words. */
  lemma CalldataIsWholeWords(keccak: Keccak, input: Input, d: Deployment, chainID: Key, isL2: bool)
    requires BuildCalldata(keccak, input, d, chainID, isL2).Ok?
    ensures |BuildCalldata(keccak, input, d, chainID, isL2).value| % 32 == 4
  {
    var initializer := BuildInitializer(keccak, input.owners, input.threshold);
    var saltNonce := FromBigEndian(SaltNonce(keccak, input.salt));
    WholeWords(CreateArgs(d.Singleton(chainID, isL2).value.address, initializer, saltNonce));
  }

  // ---------------------------------------------------------- the proxy factory

  datatype Created = Created(proxy: Address, singleton: Address, initializer: Bytes, saltNonce: nat)

  const CREATE_TYPES := [AddressT, BytesT, UintT]

  /**
   The factory contract at `self`: decode the call, hash the initializer and the salt
   nonce into the salt, append the singleton to its own creation code, and CREATE2.
   */
  function FactoryCall(keccak: Keccak, self: Address, creationCode: Bytes, calldata: Bytes): Option<Created> {
    if |calldata| < 4 || calldata[..4] != Selector(keccak, CREATE) then None
    else
      match Decode(CREATE_TYPES, calldata[4..])
      case None => None
      case Some(args) =>
        if |args| == 3 && args[0].Addr? && args[1].Blob? && args[2].Uint? then
          var singleton, initializer, saltNonce := args[0].a, args[1].b, args[2].n;
          var salt := keccak(keccak(initializer) + U256(saltNonce));
          var deploymentData := creationCode + (Zeros(12) + singleton);
          var proxy := keccak([0xff] + self + salt + keccak(deploymentData))[12..];
          Some(Created(proxy, singleton, initializer, saltNonce))
        else None
  }

  lemma CreateCallLength(singleton: Address, initializer: Bytes, saltNonce: nat)
    ensures |Encode(CreateArgs(singleton, initializer, saltNonce))| < 160 + |initializer|
    ensures Types(CreateArgs(singleton, initializer, saltNonce)) == CREATE_TYPES
  {
    var vs := CreateArgs(singleton, initializer, saltNonce);
    assert |Body(vs[1])| < 64 + |initializer|;
    TailsSkip(vs, 2);
    assert vs[1..][0] == vs[1] && vs[1..][1..] == vs[2..];
    assert Tails(vs[1..]) == Body(vs[1]) + Tails(vs[2..]);
  }

  /** The factory reads the arguments that were packed. */
  lemma CreateCallRoundTrip(keccak: Keccak, singleton: Address, initializer: Bytes, saltNonce: nat)
    requires |initializer| < WORD_LIMIT - 160 && saltNonce < WORD_LIMIT
    ensures var data := CreateCall(keccak, singleton, initializer, saltNonce);
            && |data| >= 4 && data[..4] == Selector(keccak, CREATE)
            && Decode(CREATE_TYPES, data[4..]) == Some(CreateArgs(singleton, initializer, saltNonce))
  {
    var data := CreateCall(keccak, singleton, initializer, saltNonce);
    assert data[..4] == Selector(keccak, CREATE);
    assert data[4..] == Encode(CreateArgs(singleton, initializer, saltNonce));
    CreateCallLength(singleton, initializer, saltNonce);
    RoundTrip(CreateArgs(singleton, initializer, saltNonce));
  }

  /** A salt nonce survives the trip through a number and back to a word. */
  lemma SaltNonceRoundTrip(w: Word)
    ensures FromBigEndian(w) < WORD_LIMIT && U256(FromBigEndian(w)) == w
  {
    FromBigEndianBound(w);
    WordLimit();
    FromBigEndianRoundTrip(w);
  }

  /**
   Prediction agrees with execution.  For all owners, threshold, salt, chain and L2 flag:
   whenever calldata can be built the address can be predicted, and the factory given
   that calldata deploys at exactly the predicted address, for the predicted singleton,
   a proxy whose setup reads exactly the given owners and threshold.
   */
  lemma FactoryDeploysWherePredicted(keccak: Keccak, input: Input, d: Deployment, chainID: Key, isL2: bool)
    requires SliceLength(|input.owners|) && chainID.Some?
    requires BuildCalldata(keccak, input, d, chainID, isL2).Ok?
    ensures var data := BuildCalldata(keccak, input, d, chainID, isL2).value;
            var predicted := PredictAddress(keccak, input, d, chainID, isL2);
            && predicted.Ok?
            && var out := FactoryCall(keccak, d.ProxyFactory(chainID).value.address, d.creationCode, data);
            && out.Some?
            && out.value.proxy == predicted.value
            && LoadSpec(if isL2 then d.records.safeL2 else d.records.safe, Resolve(d.chains, chainID)).Ok?
            && out.value.singleton
               == LoadSpec(if isL2 then d.records.safeL2 else d.records.safe, Resolve(d.chains, chainID)).value.address
            && U256(out.value.saltNonce) == keccak(input.salt)
            && var read := DecodeSetup(keccak, out.value.initializer);
            && read.Some?
            && read.value.owners == input.owners && read.value.threshold == input.threshold
            && read.value.data == [] && read.value.payment == 0
            && read.value.to == Zeros(20) && read.value.fallbackHandler == Zeros(20)
            && read.value.paymentToken == Zeros(20) && read.value.paymentReceiver == Zeros(20)
  {
    var singleton := d.Singleton(chainID, isL2).value.address;
    var initializer := BuildInitializer(keccak, input.owners, input.threshold);
    var nonce := SaltNonce(keccak, input.salt);
    InitializerRoundTrip(keccak, input.owners, input.threshold);
    SaltNonceRoundTrip(nonce);
    CreateCallRoundTrip(keccak, singleton, initializer, FromBigEndian(nonce));
  }

  // --------------------------------------------------------------- the receipt

  datatype Log = Log(topics: seq<Word>, data: Bytes)

  datatype Receipt = Receipt(success: bool, logs: seq<Log>, blockNumber: nat, gasUsed: nat)

  datatype ExtractError = FactoryUnknown(e: LoadError) | NoEvent | DataTooShort(length: nat) | NoLog

  predicate Matches(log: Log, event: Word) {
    |log.topics| > 0 && log.topics[0] == event
  }

  /** common.BytesToAddress of a 32-byte word: its last 20 bytes. */
  function AddressOfWord(w: Word): Address {
    w[12..]
  }

  function AddressIn(log: Log): Result<Address, ExtractError> {
    if |log.topics| > 1 then Ok(AddressOfWord(log.topics[1]))
    else if |log.data| < 32 then Err(DataTooShort(|log.data|))
    else Ok(log.data[12..32])
  }

  /** The first log with the event's topic decides. */
  function ExtractSpec(logs: seq<Log>, event: Word): Result<Address, ExtractError> {
    if logs == [] then Err(NoLog)
    else if Matches(logs[0], event) then AddressIn(logs[0])
    else ExtractSpec(logs[1..], event)
  }

  method ExtractDeployedAddress(receipt: Receipt, factory: Result<Parsed, LoadError>)
    returns (r: Result<Address, ExtractError>)
    ensures r == ExtractFrom(receipt, factory)
    ensures forall e :: r == Err(FactoryUnknown(e)) <==> factory == Err(e)
    ensures r == Err(NoEvent) <==> factory.Ok? && factory.value.abi.proxyCreation.None?
    ensures forall a :: r == Ok(a) <==> CreatedFirst(receipt.logs, factory, a)
  {
    forall a
      ensures ExtractFrom(receipt, factory) == Ok(a) <==> CreatedFirst(receipt.logs, factory, a)
    {
      ExtractsExactly(receipt, factory, a);
    }
    if factory.Err? {
      return Err(FactoryUnknown(factory.error));
    }
    var event := factory.value.abi.proxyCreation;
    if event.None? {
      return Err(NoEvent);
    }
    for n := 0 to |receipt.logs|
      invariant ExtractSpec(receipt.logs, event.value) == ExtractSpec(receipt.logs[n..], event.value)
    {
      var log := receipt.logs[n];
      if |log.topics| == 0 {
        continue;
      }
      if log.topics[0] != event.value {
        continue;
      }
      if |log.topics| > 1 {
        return Ok(AddressOfWord(log.topics[1]));
      }
      if |log.data| < 32 {
        return Err(DataTooShort(|log.data|));
      }
      return Ok(log.data[12..32]);
    }
    return Err(NoLog);
  }

  function ExtractFrom(receipt: Receipt, factory: Result<Parsed, LoadError>): Result<Address, ExtractError> {
    match factory
    case Err(e) => Err(FactoryUnknown(e))
    case Ok(f) =>
      match f.abi.proxyCreation
      case None => Err(NoEvent)
      case Some(event) => ExtractSpec(receipt.logs, event)
  }

  predicate FirstMatch(logs: seq<Log>, event: Word, k: nat) {
    && k < |logs| && Matches(logs[k], event)
    && forall j :: 0 <= j < k ==> !Matches(logs[j], event)
  }

  lemma {:induction false} FirstMatchDecides(logs: seq<Log>, event: Word, k: nat)
    requires FirstMatch(logs, event, k)
    ensures ExtractSpec(logs, event) == AddressIn(logs[k])
    decreases k
  {
    if k > 0 {
      assert !Matches(logs[0], event);
      FirstMatchDecides(logs[1..], event, k - 1);
    }
  }

  lemma {:induction false} NoMatchNoAddress(logs: seq<Log>, event: Word)
    requires forall j :: 0 <= j < |logs| ==> !Matches(logs[j], event)
    ensures ExtractSpec(logs, event) == Err(NoLog)
    decreases |logs|
  {
    if logs != [] {
      assert !Matches(logs[0], event);
      NoMatchNoAddress(logs[1..], event);
    }
  }

  /** Either no log matches, or there is a first match. */
  lemma {:induction false} FindFirstMatch(logs: seq<Log>, event: Word) returns (k: nat)
    ensures k <= |logs| && forall j :: 0 <= j < k ==> !Matches(logs[j], event)
    ensures k < |logs| ==> FirstMatch(logs, event, k)
    decreases |logs|
  {
    k := 0;
    if logs != [] && !Matches(logs[0], event) {
      var later := FindFirstMatch(logs[1..], event);
      k := later + 1;
      assert forall j :: 1 <= j < k ==> logs[j] == logs[1..][j - 1];
    }
  }

  /** The first log with the event has it unindexed, with too little data. */
  ghost predicate TooShort(logs: seq<Log>, event: Word, length: nat) {
    exists k: nat :: FirstMatch(logs, event, k) && |logs[k].topics| == 1 && |logs[k].data| == length < 32
  }

  /** Extraction fails exactly if no log matches, or the first match is unindexed with under 32 data bytes. */
  lemma ExtractionFailsExactly(logs: seq<Log>, event: Word)
    ensures ExtractSpec(logs, event).Err? <==>
              ExtractSpec(logs, event) == Err(NoLog) || exists n :: TooShort(logs, event, n)
    ensures ExtractSpec(logs, event) == Err(NoLog) <==> forall j :: 0 <= j < |logs| ==> !Matches(logs[j], event)
    ensures forall n :: ExtractSpec(logs, event) == Err(DataTooShort(n)) <==> TooShort(logs, event, n)
  {
    var k := FindFirstMatch(logs, event);
    if k < |logs| {
      FirstMatchDecides(logs, event, k);
      assert forall j: nat :: FirstMatch(logs, event, j) ==> j == k;
      assert TooShort(logs, event, |logs[k].data|) <==> |logs[k].topics| == 1 && |logs[k].data| < 32;
    } else {
      NoMatchNoAddress(logs, event);
    }
  }

  /** A creation log names its proxy in its second topic, or else in its first data word. */
  predicate Names(log: Log, proxy: Address) {
    if |log.topics| > 1 then log.topics[1][12..] == proxy else |log.data| >= 32 && log.data[12..32] == proxy
  }

  /** The first log with the factory's creation event names this proxy. */
  ghost predicate CreatedFirst(logs: seq<Log>, factory: Result<Parsed, LoadError>, proxy: Address) {
    && factory.Ok? && factory.value.abi.proxyCreation.Some?
    && exists k: nat :: FirstMatch(logs, factory.value.abi.proxyCreation.value, k) && Names(logs[k], proxy)
  }

  /** Extraction gives an address exactly if the first log with the event names it. */
  lemma ExtractsExactly(receipt: Receipt, factory: Result<Parsed, LoadError>, proxy: Address)
    ensures ExtractFrom(receipt, factory) == Ok(proxy) <==> CreatedFirst(receipt.logs, factory, proxy)
  {
    if factory.Ok? && factory.value.abi.proxyCreation.Some? {
      var event := factory.value.abi.proxyCreation.value;
      var k := FindFirstMatch(receipt.logs, event);
      if k < |receipt.logs| {
        FirstMatchDecides(receipt.logs, event, k);
        assert forall j: nat :: FirstMatch(receipt.logs, event, j) ==> j == k;
      } else {
        NoMatchNoAddress(receipt.logs, event);
      }
    }
  }

  /** The event v1.3.0 emits (nothing indexed), and the one v1.4.1 and v1.5.0 emit (proxy indexed). */
  function CreationLog(event: Word, proxy: Address, singleton: Address, indexed: bool): Log {
    if indexed then Log([event, PadAddress(proxy)], PadAddress(singleton))
    else Log([event], Encode([Addr(proxy), Addr(singleton)]))
  }

  /** Whatever other logs there are, the first creation log yields the proxy, in both layouts. */
  lemma EventRoundTrip(before: seq<Log>, after: seq<Log>, event: Word, proxy: Address, singleton: Address, indexed: bool)
    requires forall j :: 0 <= j < |before| ==> !Matches(before[j], event)
    ensures ExtractSpec(before + [CreationLog(event, proxy, singleton, indexed)] + after, event) == Ok(proxy)
  {
    var log := CreationLog(event, proxy, singleton, indexed);
    FirstMatchDecides(before + [log] + after, event, |before|);
    if !indexed {
      var vs := [Addr(proxy), Addr(singleton)];
      assert vs[0] == Addr(proxy) && !vs[0].Dynamic();
      assert log.data[..32] == PadAddress(proxy);
      assert log.data[12..32] == PadAddress(proxy)[12..];
    }
  }

  // --------------------------------------------------------------------- waiting

  datatype WaitError =
    | PredictionFailed(e: PredictError)
    | NoReceipt
    | Reverted
    | ExtractionFailed(x: ExtractError)
    | Mismatch(predicted: Address, actual: Address, blockNumber: nat)

  datatype Deployed = Deployed(safe: Address, blockNumber: nat, gasUsed: nat)

  /**
   receipt is what polling ends with: None if the context ended first.  The registry is
   read when Wait is called, as d has it, and again, as `later`, once there is a receipt.
   */
  function Wait(keccak: Keccak, input: Input, d: Deployment, later: map<Key, Chain>, chainID: Key, isL2: bool,
                receipt: Option<Receipt>): Result<Deployed, WaitError>
  {
    match PredictAddress(keccak, input, d, chainID, isL2)
    case Err(e) => Err(PredictionFailed(e))
    case Ok(predicted) =>
      if receipt.None? then Err(NoReceipt)
      else if !receipt.value.success then Err(Reverted)
      else
        match ExtractFrom(receipt.value, d.(chains := later).ProxyFactory(chainID))
        case Err(x) => Err(ExtractionFailed(x))
        case Ok(actual) =>
          if actual != predicted then Err(Mismatch(predicted, actual, receipt.value.blockNumber))
          else Ok(Deployed(actual, receipt.value.blockNumber, receipt.value.gasUsed))
  }

  /**
   Wait succeeds exactly if there is a receipt, it did not revert, and its first log with
   the event of the factory, as the registry stands by then, names the predicted address.
   */
  lemma WaitSucceedsExactly(keccak: Keccak, input: Input, d: Deployment, later: map<Key, Chain>, chainID: Key,
                            isL2: bool, receipt: Option<Receipt>, x: Deployed)
    ensures Wait(keccak, input, d, later, chainID, isL2, receipt) == Ok(x) <==>
              && PredictAddress(keccak, input, d, chainID, isL2) == Ok(x.safe)
              && receipt.Some? && receipt.value.success
              && CreatedFirst(receipt.value.logs, LoadSpec(d.records.factory, Resolve(later, chainID)), x.safe)
              && x.blockNumber == receipt.value.blockNumber && x.gasUsed == receipt.value.gasUsed
  {
    if receipt.Some? {
      ExtractsExactly(receipt.value, LoadSpec(d.records.factory, Resolve(later, chainID)), x.safe);
    }
  }

  /** Wait's errors, each exactly when it is given; a mismatch only if the log names another address. */
  lemma WaitFailsExactly(keccak: Keccak, input: Input, d: Deployment, later: map<Key, Chain>, chainID: Key,
                         isL2: bool, receipt: Option<Receipt>)
    ensures var r := Wait(keccak, input, d, later, chainID, isL2, receipt);
            var predicted := PredictAddress(keccak, input, d, chainID, isL2);
            var factory := LoadSpec(d.records.factory, Resolve(later, chainID));
            && (forall e :: r == Err(PredictionFailed(e)) <==> predicted == Err(e))
            && (r == Err(NoReceipt) <==> predicted.Ok? && receipt.None?)
            && (r == Err(Reverted) <==> predicted.Ok? && receipt.Some? && !receipt.value.success)
            && (forall x :: r == Err(ExtractionFailed(x)) <==>
                  predicted.Ok? && receipt.Some? && receipt.value.success
                  && ExtractFrom(receipt.value, factory) == Err(x))
            && (forall p, a, n :: r == Err(Mismatch(p, a, n)) <==>
                  && predicted == Ok(p) && receipt.Some? && receipt.value.success
                  && CreatedFirst(receipt.value.logs, factory, a) && a != p && n == receipt.value.blockNumber)
  {
    if receipt.Some? {
      var factory := LoadSpec(d.records.factory, Resolve(later, chainID));
      forall a
        ensures ExtractFrom(receipt.value, factory) == Ok(a) <==> CreatedFirst(receipt.value.logs, factory, a)
      {
        ExtractsExactly(receipt.value, factory, a);
      }
    }
  }

  /** The receipt of a successful call of the factory with this calldata. */
  ghost predicate Faithful(keccak: Keccak, receipt: Receipt, factory: Parsed, creationCode: Bytes, calldata: Bytes) {
    exists before, after, indexed, event ::
      && factory.abi.proxyCreation == Some(event)
      && (forall j :: 0 <= j < |before| ==> !Matches(before[j], event))
      && FactoryCall(keccak, factory.address, creationCode, calldata).Some?
      && var out := FactoryCall(keccak, factory.address, creationCode, calldata).value;
      receipt.logs == before + [CreationLog(event, out.proxy, out.singleton, indexed)] + after
  }

  /**
   With a faithful factory and the calldata Submit sent under d, Wait compares the address
   predicted in its own registry with the one predicted in Submit's, as long as the
   factory found after polling still has the same event.
   */
  lemma WaitComparesPredictions(keccak: Keccak, input: Input, d: Deployment, called: map<Key, Chain>,
                                later: map<Key, Chain>, chainID: Key, isL2: bool, receipt: Receipt)
    requires SliceLength(|input.owners|) && chainID.Some?
    requires BuildCalldata(keccak, input, d, chainID, isL2).Ok? && receipt.success
    requires Faithful(keccak, receipt, d.ProxyFactory(chainID).value, d.creationCode,
                      BuildCalldata(keccak, input, d, chainID, isL2).value)
    requires PredictAddress(keccak, input, d.(chains := called), chainID, isL2).Ok?
    requires d.(chains := later).ProxyFactory(chainID).Ok?
    requires d.(chains := later).ProxyFactory(chainID).value.abi.proxyCreation
          == d.ProxyFactory(chainID).value.abi.proxyCreation
    ensures PredictAddress(keccak, input, d, chainID, isL2).Ok?
    ensures var submitted := PredictAddress(keccak, input, d, chainID, isL2).value;
            var predicted := PredictAddress(keccak, input, d.(chains := called), chainID, isL2).value;
            Wait(keccak, input, d.(chains := called), later, chainID, isL2, Some(receipt))
              == if predicted == submitted
                 then Ok(Deployed(predicted, receipt.blockNumber, receipt.gasUsed))
                 else Err(Mismatch(predicted, submitted, receipt.blockNumber))
  {
    FactoryDeploysWherePredicted(keccak, input, d, chainID, isL2);
    var factory := d.ProxyFactory(chainID).value;
    var out := FactoryCall(keccak, factory.address, d.creationCode,
                           BuildCalldata(keccak, input, d, chainID, isL2).value).value;
    var before, after, indexed, event :|
      && factory.abi.proxyCreation == Some(event)
      && (forall j :: 0 <= j < |before| ==> !Matches(before[j], event))
      && receipt.logs == before + [CreationLog(event, out.proxy, out.singleton, indexed)] + after;
    EventRoundTrip(before, after, event, out.proxy, out.singleton, indexed);
  }

  /**
   The predicted address is the deployed one.  For the calldata Submit sends and a faithful
   factory, Wait on a mined receipt that did not revert returns the predicted address,
   never a mismatch, whatever happens to the registry except that the chain id comes to
   resolve to another one.
   */
  lemma WaitNeverMismatches(keccak: Keccak, input: Input, d: Deployment, called: map<Key, Chain>,
                            later: map<Key, Chain>, chainID: Key, isL2: bool, receipt: Receipt)
    requires SliceLength(|input.owners|) && chainID.Some?
    requires BuildCalldata(keccak, input, d, chainID, isL2).Ok? && receipt.success
    requires Faithful(keccak, receipt, d.ProxyFactory(chainID).value, d.creationCode,
                      BuildCalldata(keccak, input, d, chainID, isL2).value)
    requires Resolve(d.chains, chainID) == Resolve(called, chainID) == Resolve(later, chainID)
    ensures PredictAddress(keccak, input, d, chainID, isL2).Ok?
    ensures Wait(keccak, input, d.(chains := called), later, chainID, isL2, Some(receipt))
         == Ok(Deployed(PredictAddress(keccak, input, d, chainID, isL2).value, receipt.blockNumber, receipt.gasUsed))
  {
    FactoryDeploysWherePredicted(keccak, input, d, chainID, isL2);
    WaitComparesPredictions(keccak, input, d, called, later, chainID, isL2, receipt);
  }

  // ------------------------------------------------- a fork between Submit and Wait

  /** A record with one address on chain 1 and another on chain 2. */
  function TwoChains(one: Address, two: Address): Record {
    Record(map["canonical" := Some(one), "eip155" := Some(two)],
           map[Some(1) := ["canonical"], Some(2) := ["eip155"]],
           Some(Interface(true, Some(Zeros(32)))))
  }

  /** A hash under which CREATE2 gives the creator's own address. */
  function CreatorsAddress(b: Bytes): Word {
    if |b| == 85 then Zeros(12) + b[1..21] else Zeros(32)
  }

  lemma TwoChainsLoad(one: Address, two: Address, key: Key)
    requires key == Some(1) || key == Some(2)
    ensures LoadSpec(Some(TwoChains(one, two)), key)
         == Ok(Parsed(if key == Some(1) then one else two, Interface(true, Some(Zeros(32)))))
  {
    assert !IsZksync("eip155") by {
      assert !Folds("eip155"[0], ZKSYNC[0]);
    }
  }

  /** A deployment whose factory and singletons are at `one` on chain 1 and at `two` on chain 2. */
  function OnTwoChains(one: Address, two: Address, chains: map<Key, Chain>): Deployment {
    var record := Some(TwoChains(one, two));
    Deployment(Records(record, record, record), chains, [])
  }

  lemma PredictsCreator(input: Input, factory: Address, singleton: Address, code: Bytes)
    ensures AddressFor(CreatorsAddress, input, factory, singleton, code) == factory
  {
    var initializer := BuildInitializer(CreatorsAddress, input.owners, input.threshold);
    var salt := Salt(CreatorsAddress, initializer, SaltNonce(CreatorsAddress, input.salt));
    var preimage := Create2Preimage(CreatorsAddress, factory, salt, InitCode(code, singleton));
    assert preimage[1..21] == factory;
    assert CreatorsAddress(preimage)[12..] == factory;
  }

  lemma PredictsItsFactory(input: Input, one: Address, two: Address, chains: map<Key, Chain>)
    requires Resolve(chains, Some(1)) == Some(1) || Resolve(chains, Some(1)) == Some(2)
    ensures var d, address := OnTwoChains(one, two, chains), if Resolve(chains, Some(1)) == Some(1) then one else two;
            && d.ProxyFactory(Some(1)) == Ok(Parsed(address, Interface(true, Some(Zeros(32)))))
            && PredictAddress(CreatorsAddress, input, d, Some(1), false) == Ok(address)
            && BuildCalldata(CreatorsAddress, input, d, Some(1), false).Ok?
  {
    TwoChainsLoad(one, two, Resolve(chains, Some(1)));
    var address := if Resolve(chains, Some(1)) == Some(1) then one else two;
    PredictsCreator(input, address, address, []);
  }

  /** The receipt of the factory's call with nothing but the creation in it. */
  function OnlyCreation(out: Created): Receipt {
    Receipt(true, [CreationLog(Zeros(32), out.proxy, out.singleton, true)], 0, 0)
  }

  lemma OnlyCreationIsFaithful(keccak: Keccak, factory: Parsed, code: Bytes, calldata: Bytes)
    requires factory.abi.proxyCreation == Some(Zeros(32)) && FactoryCall(keccak, factory.address, code, calldata).Some?
    ensures Faithful(keccak, OnlyCreation(FactoryCall(keccak, factory.address, code, calldata).value),
                     factory, code, calldata)
  {
    var out := FactoryCall(keccak, factory.address, code, calldata).value;
    var none: seq<Log> := [];
    var log := CreationLog(Zeros(32), out.proxy, out.singleton, true);
    assert OnlyCreation(out).logs == none + [log] + none;
  }

  /**
   The exception is needed: chain 1 is forked from chain 2 after Submit, the factory
   deploys faithfully where Submit predicted, and Wait reports a mismatch.
   */
  lemma ForkAfterSubmitMismatches(input: Input, one: Address, two: Address, fork: Chain)
    returns (d: Deployment, called: map<Key, Chain>, receipt: Receipt)
    requires SliceLength(|input.owners|) && one != two && fork.id == Some(1) && fork.forksChainID == Some(2)
    ensures d.chains == map[] && called == d.chains[Some(1) := fork]
    ensures BuildCalldata(CreatorsAddress, input, d, Some(1), false).Ok? && receipt.success
    ensures Faithful(CreatorsAddress, receipt, d.ProxyFactory(Some(1)).value, d.creationCode,
                     BuildCalldata(CreatorsAddress, input, d, Some(1), false).value)
    ensures Wait(CreatorsAddress, input, d.(chains := called), called, Some(1), false, Some(receipt))
         == Err(Mismatch(two, one, receipt.blockNumber))
  {
    d, called := OnTwoChains(one, two, map[]), map[Some(1) := fork];
    PredictsItsFactory(input, one, two, d.chains);
    PredictsItsFactory(input, one, two, called);
    assert d.(chains := called) == OnTwoChains(one, two, called);
    FactoryDeploysWherePredicted(CreatorsAddress, input, d, Some(1), false);
    var calldata := BuildCalldata(CreatorsAddress, input, d, Some(1), false).value;
    OnlyCreationIsFaithful(CreatorsAddress, d.ProxyFactory(Some(1)).value, d.creationCode, calldata);
    receipt := OnlyCreation(FactoryCall(CreatorsAddress, one, d.creationCode, calldata).value);
    WaitComparesPredictions(CreatorsAddress, input, d, called, called, Some(1), false, receipt);
  }
}
