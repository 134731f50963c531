/**
 The Solidity Contract ABI encoding of argument lists ("Formal Specification of the
 Encoding"), for the four argument types the library uses, with a decoder.
 */
module Abi {
  import opened Common
  import opened Bytes

  datatype Type = UintT | AddressT | BytesT | AddressesT

  datatype Value =
    | Uint(n: nat)
    | Addr(a: Address)
    | Blob(b: Bytes)
    | Addrs(owners: seq<Address>)
  {
    function Type(): Type {
      match this
      case Uint(_) => UintT
      case Addr(_) => AddressT
      case Blob(_) => BytesT
      case Addrs(_) => AddressesT
    }

    predicate Dynamic() {
      Blob? || Addrs?
    }

    /** Numbers and lengths fit in a word. */
    predicate Fits() {
      match this
      case Uint(n) => n < WORD_LIMIT
      case Addr(_) => true
      case Blob(b) => |b| < WORD_LIMIT
      case Addrs(owners) => |owners| < WORD_LIMIT
    }
  }

  function U256(n: nat): Word {
    BigEndian(n, 32)
  }

  /** An address is left-padded to a word. */
  function PadAddress(a: Address): Word {
    Zeros(12) + a
  }

  /** Bytes are right-padded to whole words. */
  function PadRight(b: Bytes): Bytes {
    b + Zeros((32 - |b| % 32) % 32)
  }

  function Words(owners: seq<Address>): (r: Bytes)
    ensures |r| == 32 * |owners|
  {
    if owners == [] then [] else PadAddress(owners[0]) + Words(owners[1..])
  }

  /** enc(X) of a static value, and of a dynamic one. */
  function Static(v: Value): Word
    requires !v.Dynamic()
  {
    match v
    case Uint(n) => U256(n)
    case Addr(a) => PadAddress(a)
  }

  function Body(v: Value): Bytes
    requires v.Dynamic()
  {
    match v
    case Blob(b) => U256(|b|) + PadRight(b)
    case Addrs(owners) => U256(|owners|) + Words(owners)
  }

  /** A static value's head is its encoding, a dynamic one's the offset of its tail. */
  function Heads(vs: seq<Value>, offset: nat): (r: Bytes)
    ensures |r| == 32 * |vs|
  {
    if vs == [] then []
    else if vs[0].Dynamic() then U256(offset) + Heads(vs[1..], offset + |Body(vs[0])|)
    else Static(vs[0]) + Heads(vs[1..], offset)
  }

  function Tails(vs: seq<Value>): Bytes {
    if vs == [] then []
    else if vs[0].Dynamic() then Body(vs[0]) + Tails(vs[1..])
    else Tails(vs[1..])
  }

  /** Offsets count from the start of the argument block. */
  function Encode(vs: seq<Value>): Bytes {
    Heads(vs, 32 * |vs|) + Tails(vs)
  }

  // -------------------------------------------------------------------- layout

  lemma PaddedLength(n: nat)
    ensures n + (32 - n % 32) % 32 == 32 * ((n + 31) / 32)
  {
    var q, r := n / 32, n % 32;
    assert n == 32 * q + r;
    assert (n + 31) / 32 == if r == 0 then q else q + 1;
  }

  lemma LengthThenData(n: Word, b: Bytes, pad: Bytes)
    requires forall i :: 0 <= i < |pad| ==> pad[i] == 0
    ensures var body := n + (b + pad);
            && body[..32] == n && body[32..32 + |b|] == b
            && forall i :: 32 + |b| <= i < |body| ==> body[i] == 0
  {
  }

  /** A blob takes whole words behind its length and is filled up with zeros. */
  lemma BlobIsPadded(b: Bytes)
    ensures var body := Body(Blob(b));
            && |body| == 32 + 32 * ((|b| + 31) / 32)
            && body[..32] == BigEndian(|b|, 32) && body[32..32 + |b|] == b
            && forall i :: 32 + |b| <= i < |body| ==> body[i] == 0
  {
    var pad := Zeros((32 - |b| % 32) % 32);
    PaddedLength(|b|);
    LengthThenData(U256(|b|), b, pad);
    assert Body(Blob(b)) == U256(|b|) + (b + pad);
  }

  lemma BodyWords(v: Value) returns (k: nat)
    requires v.Dynamic()
    ensures |Body(v)| == 32 * k
  {
    match v
    case Blob(b) =>
      BlobIsPadded(b);
      k := 1 + (|b| + 31) / 32;
    case Addrs(owners) =>
      k := 1 + |owners|;
  }

  lemma {:induction false} TailWords(vs: seq<Value>) returns (k: nat)
    ensures |Tails(vs)| == 32 * k
  {
    k := 0;
    if vs != [] {
      k := TailWords(vs[1..]);
      if vs[0].Dynamic() {
        var first := BodyWords(vs[0]);
        k := first + k;
      }
    }
  }

  /** An argument block consists of whole words. */
  lemma WholeWords(vs: seq<Value>)
    ensures |Encode(vs)| % 32 == 0
  {
    var k := TailWords(vs);
    assert |Encode(vs)| == 32 * (|vs| + k);
  }

  /** Arguments come in order, one head word each. */
  lemma FirstHead(v: Value, rest: seq<Value>, offset: nat)
    ensures Heads([v] + rest, offset)
         == if v.Dynamic() then U256(offset) + Heads(rest, offset + |Body(v)|) else Static(v) + Heads(rest, offset)
    ensures Tails([v] + rest) == if v.Dynamic() then Body(v) + Tails(rest) else Tails(rest)
  {
    var vs := [v] + rest;
    assert vs[0] == v && vs[1..] == rest;
  }

  // ------------------------------------------------------------------- decoding

  function WordAt(data: Bytes, pos: nat): Option<Word> {
    if pos + 32 <= |data| then Some(data[pos..pos + 32]) else None
  }

  function NumberAt(data: Bytes, pos: nat): Option<nat> {
    match WordAt(data, pos)
    case Some(w) => Some(FromBigEndian(w))
    case None => None
  }

  function AddressAt(data: Bytes, pos: nat): Option<Address> {
    match WordAt(data, pos)
    case Some(w) => if w[..12] == Zeros(12) then Some(w[12..]) else None
    case None => None
  }

  function AddressesAt(data: Bytes, pos: nat, count: nat): Option<seq<Address>>
    decreases count
  {
    if count == 0 then Some([])
    else if pos + 32 > |data| then None
    else
      match (AddressAt(data, pos), AddressesAt(data, pos + 32, count - 1))
      case (Some(a), Some(rest)) => Some([a] + rest)
      case _ => None
  }

  function DecodeOne(t: Type, data: Bytes, pos: nat): Option<Value> {
    match t
    case UintT => (match NumberAt(data, pos) case Some(n) => Some(Uint(n)) case None => None)
    case AddressT => (match AddressAt(data, pos) case Some(a) => Some(Addr(a)) case None => None)
    case _ => (match NumberAt(data, pos) case Some(offset) => DecodeBody(t, data, offset) case None => None)
  }

  function DecodeBody(t: Type, data: Bytes, offset: nat): Option<Value> {
    match NumberAt(data, offset)
    case None => None
    case Some(count) =>
      if t.BytesT? then
        (if offset + 32 + count <= |data| then Some(Blob(data[offset + 32..offset + 32 + count])) else None)
      else
        match AddressesAt(data, offset + 32, count)
        case Some(owners) => Some(Addrs(owners))
        case None => None
  }

  function DecodeFrom(ts: seq<Type>, data: Bytes, pos: nat): Option<seq<Value>> {
    if ts == [] then Some([])
    else
      match (DecodeOne(ts[0], data, pos), DecodeFrom(ts[1..], data, pos + 32))
      case (Some(v), Some(rest)) => Some([v] + rest)
      case _ => None
  }

  function Decode(ts: seq<Type>, data: Bytes): Option<seq<Value>> {
    DecodeFrom(ts, data, 0)
  }

  // ----------------------------------------------------------------- round trip

  function Types(vs: seq<Value>): seq<Type> {
    seq(|vs|, i requires 0 <= i < |vs| => vs[i].Type())
  }

  predicate AllFit(vs: seq<Value>) {
    forall i :: 0 <= i < |vs| ==> vs[i].Fits()
  }

  /** part stands in data at pos. */
  predicate StandsAt(part: Bytes, data: Bytes, pos: nat) {
    pos + |part| <= |data| && data[pos..pos + |part|] == part
  }

  lemma SplitStands(a: Bytes, b: Bytes, data: Bytes, pos: nat)
    requires StandsAt(a + b, data, pos)
    ensures StandsAt(a, data, pos) && StandsAt(b, data, pos + |a|)
  {
    assert data[pos..pos + |a|] == (a + b)[..|a|];
    assert data[pos + |a|..pos + |a| + |b|] == (a + b)[|a|..];
  }

  lemma {:induction false} AddressesRoundTrip(owners: seq<Address>, data: Bytes, pos: nat)
    requires StandsAt(Words(owners), data, pos)
    ensures AddressesAt(data, pos, |owners|) == Some(owners)
    decreases |owners|
  {
    if owners != [] {
      SplitStands(PadAddress(owners[0]), Words(owners[1..]), data, pos);
      AddressesRoundTrip(owners[1..], data, pos + 32);
      assert PadAddress(owners[0])[..12] == Zeros(12) && PadAddress(owners[0])[12..] == owners[0];
      assert [owners[0]] + owners[1..] == owners;
    }
  }

  lemma NumberRoundTrip(n: nat, data: Bytes, pos: nat)
    requires n < WORD_LIMIT && StandsAt(U256(n), data, pos)
    ensures NumberAt(data, pos) == Some(n)
  {
    WordRoundTrip(n);
  }

  /** A count followed by a block: what stands where. */
  lemma CountedBlock(n: nat, block: Bytes, data: Bytes, offset: nat)
    requires n < WORD_LIMIT && StandsAt(U256(n) + block, data, offset)
    ensures NumberAt(data, offset) == Some(n) && StandsAt(block, data, offset + 32)
  {
    SplitStands(U256(n), block, data, offset);
    NumberRoundTrip(n, data, offset);
  }

  lemma BlobRoundTrip(b: Bytes, pad: Bytes, data: Bytes, offset: nat)
    requires |b| < WORD_LIMIT && StandsAt(U256(|b|) + (b + pad), data, offset)
    ensures DecodeBody(BytesT, data, offset) == Some(Blob(b))
  {
    CountedBlock(|b|, b + pad, data, offset);
    SplitStands(b, pad, data, offset + 32);
  }

  lemma AddrsRoundTrip(owners: seq<Address>, words: Bytes, data: Bytes, offset: nat)
    requires words == Words(owners)
    requires |owners| < WORD_LIMIT && StandsAt(U256(|owners|) + words, data, offset)
    ensures DecodeBody(AddressesT, data, offset) == Some(Addrs(owners))
  {
    CountedBlock(|owners|, words, data, offset);
    AddressesRoundTrip(owners, data, offset + 32);
    AddressesDecode(data, offset, owners);
  }

  lemma AddressesDecode(data: Bytes, offset: nat, owners: seq<Address>)
    requires NumberAt(data, offset) == Some(|owners|)
    requires AddressesAt(data, offset + 32, |owners|) == Some(owners)
    ensures DecodeBody(AddressesT, data, offset) == Some(Addrs(owners))
  {
  }

  lemma BodyRoundTrip(v: Value, data: Bytes, offset: nat)
    requires v.Dynamic() && v.Fits() && StandsAt(Body(v), data, offset)
    ensures DecodeBody(v.Type(), data, offset) == Some(v)
  {
    match v
    case Blob(b) => BlobRoundTrip(b, Zeros((32 - |b| % 32) % 32), data, offset);
    case Addrs(owners) => AddrsRoundTrip(owners, Words(owners), data, offset);
  }

  lemma StaticRoundTrip(v: Value, data: Bytes, pos: nat)
    requires !v.Dynamic() && v.Fits() && StandsAt(Static(v), data, pos)
    ensures DecodeOne(v.Type(), data, pos) == Some(v)
  {
    match v
    case Uint(n) => NumberRoundTrip(n, data, pos);
    case Addr(a) => assert PadAddress(a)[..12] == Zeros(12) && PadAddress(a)[12..] == a;
  }

  /** The first argument of a block decodes, and the rest of the block stands behind it. */
  lemma DynamicFirst(v: Value, heads: Bytes, tails: Bytes, data: Bytes, pos: nat, offset: nat)
    requires v.Dynamic() && v.Fits() && |data| < WORD_LIMIT
    requires StandsAt(U256(offset) + heads, data, pos) && StandsAt(Body(v) + tails, data, offset)
    ensures DecodeOne(v.Type(), data, pos) == Some(v)
    ensures StandsAt(heads, data, pos + 32) && StandsAt(tails, data, offset + |Body(v)|)
  {
    BodyStands(v, tails, data, offset);
    CountedBlock(offset, heads, data, pos);
    OffsetDecodes(v.Type(), data, pos, offset);
  }

  lemma BodyStands(v: Value, tails: Bytes, data: Bytes, offset: nat)
    requires v.Dynamic() && v.Fits() && StandsAt(Body(v) + tails, data, offset)
    ensures DecodeBody(v.Type(), data, offset) == Some(v) && offset <= |data|
    ensures StandsAt(tails, data, offset + |Body(v)|)
  {
    SplitStands(Body(v), tails, data, offset);
    BodyRoundTrip(v, data, offset);
  }

  lemma OffsetDecodes(t: Type, data: Bytes, pos: nat, offset: nat)
    requires t.BytesT? || t.AddressesT?
    requires NumberAt(data, pos) == Some(offset)
    ensures DecodeOne(t, data, pos) == DecodeBody(t, data, offset)
  {
  }

  lemma StaticFirst(v: Value, heads: Bytes, data: Bytes, pos: nat)
    requires !v.Dynamic() && v.Fits() && StandsAt(Static(v) + heads, data, pos)
    ensures DecodeOne(v.Type(), data, pos) == Some(v)
    ensures StandsAt(heads, data, pos + 32)
  {
    SplitStands(Static(v), heads, data, pos);
    StaticRoundTrip(v, data, pos);
  }

  lemma DecodeCons(v: Value, rest: seq<Value>, data: Bytes, pos: nat)
    requires DecodeOne(v.Type(), data, pos) == Some(v)
    requires DecodeFrom(Types(rest), data, pos + 32) == Some(rest)
    ensures DecodeFrom(Types([v] + rest), data, pos) == Some([v] + rest)
  {
    assert Types([v] + rest)[1..] == Types(rest);
  }

  /** Where the tails of the arguments after v begin. */
  function Next(v: Value, offset: nat): nat {
    if v.Dynamic() then offset + |Body(v)| else offset
  }

  lemma FirstRoundTrip(v: Value, rest: seq<Value>, data: Bytes, pos: nat, offset: nat)
    requires v.Fits() && |data| < WORD_LIMIT
    requires StandsAt(Heads([v] + rest, offset), data, pos) && StandsAt(Tails([v] + rest), data, offset)
    ensures DecodeOne(v.Type(), data, pos) == Some(v)
    ensures StandsAt(Heads(rest, Next(v, offset)), data, pos + 32)
    ensures StandsAt(Tails(rest), data, Next(v, offset))
  {
    assert ([v] + rest)[1..] == rest;
    if v.Dynamic() {
      DynamicFirst(v, Heads(rest, Next(v, offset)), Tails(rest), data, pos, offset);
    } else {
      StaticFirst(v, Heads(rest, offset), data, pos);
    }
  }

  /** Heads at pos and tails at offset decode to the values they were made from. */
  lemma {:induction false} DecodeFromRoundTrip(vs: seq<Value>, data: Bytes, pos: nat, offset: nat)
    requires AllFit(vs) && |data| < WORD_LIMIT
    requires StandsAt(Heads(vs, offset), data, pos) && StandsAt(Tails(vs), data, offset)
    ensures DecodeFrom(Types(vs), data, pos) == Some(vs)
    decreases |vs|
  {
    if vs != [] {
      var v, rest := vs[0], vs[1..];
      assert [v] + rest == vs;
      FirstRoundTrip(v, rest, data, pos, offset);
      DecodeFromRoundTrip(rest, data, pos + 32, Next(v, offset));
      DecodeCons(v, rest, data, pos);
    }
  }

  /** Decoding an encoding by its types gives the values back, for every list of values. */
  lemma RoundTrip(vs: seq<Value>)
    requires AllFit(vs) && |Encode(vs)| < WORD_LIMIT
    ensures Decode(Types(vs), Encode(vs)) == Some(vs)
  {
    var data := Encode(vs);
    assert StandsAt(Heads(vs, 32 * |vs|), data, 0);
    assert StandsAt(Tails(vs), data, 32 * |vs|);
    DecodeFromRoundTrip(vs, data, 0, 32 * |vs|);
  }
}
