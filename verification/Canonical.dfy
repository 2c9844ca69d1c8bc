/** Content addresses: the canonical bytes of a trait bag and of a contract, and
  * exactly what they identify. */
module Canonical {
  import opened Base
  import opened Strings
  import opened Encoding
  import opened Kernel
  import opened Integrity

  // ---------------------------------------------------------------- trait bags

  /** A trait's value: an inline body or a verified external object. */
  datatype Content = Inline(body: Bytes) | External(ref: ObjectRef)

  function Said(t: Trait): Content {
    if HasExternal(t) then External(t.external.value) else Inline(t.body)
  }

  /** What a trait bag says, whichever way it is written down. */
  function Bag(traits: map<string, Trait>): map<string, Content> {
    map c | c in traits :: Said(traits[c])
  }

  function ObjectRefBytes(ref: ObjectRef): Bytes {
    Utf8(ref.digest) + [SEP] + (BE64(ref.byteCount) + [SEP] + Utf8(ref.namespace))
  }

  function ContentBytes(c: Content): Bytes {
    match c
    case Inline(body) => body
    case External(ref) => ObjectRefBytes(ref)
  }

  /** Contract refs and contents, each closed by a NUL, in the order given. */
  function EncodeInOrder(bag: map<string, Content>, keys: seq<string>): Bytes
    requires forall i :: 0 <= i < |keys| ==> keys[i] in bag
  {
    if keys == [] then []
    else Utf8(keys[0]) + [SEP] + (ContentBytes(bag[keys[0]]) + [SEP] + EncodeInOrder(bag, keys[1..]))
  }

  /** The canonical encoding of a trait bag. */
  ghost function CanonicalBytes(bag: map<string, Content>): Bytes {
    EncodeInOrder(bag, Listing(bag.Keys))
  }

  ghost function EncodeFrom(bag: map<string, Content>, keys: seq<string>, i: nat): Bytes
    requires i <= |keys| && forall j :: 0 <= j < |keys| ==> keys[j] in bag
  {
    EncodeInOrder(bag, keys[i..])
  }

  function EncodeTrait(key: string, t: Trait): Bytes {
    Utf8(key) + [SEP] + (ContentBytes(Said(t)) + [SEP])
  }

  lemma WriteNext(traits: map<string, Trait>, keys: seq<string>, i: nat, out: Bytes)
    requires i < |keys| && forall j :: 0 <= j < |keys| ==> keys[j] in traits
    ensures out + EncodeFrom(Bag(traits), keys, i)
         == out + EncodeTrait(keys[i], traits[keys[i]]) + EncodeFrom(Bag(traits), keys, i + 1)
  {
    assert keys[i..][0] == keys[i] && keys[i..][1..] == keys[i + 1..];
  }

  method WriteTraits(traits: map<string, Trait>, keys: seq<string>) returns (out: Bytes)
    requires forall i :: 0 <= i < |keys| ==> keys[i] in traits
    ensures out == EncodeInOrder(Bag(traits), keys)
  {
    out := [];
    assert keys[0..] == keys;
    for i := 0 to |keys|
      invariant out + EncodeFrom(Bag(traits), keys, i) == EncodeInOrder(Bag(traits), keys)
    {
      WriteNext(traits, keys, i, out);
      out := out + EncodeTrait(keys[i], traits[keys[i]]);
    }
  }

  /** `artifact_canonical_bytes`: collect the keys, sort, write each trait. */
  method ArtifactCanonicalBytes(traits: map<string, Trait>) returns (out: Bytes)
    ensures out == CanonicalBytes(Bag(traits))
  {
    var keys := Keys(traits.Keys);
    assert Bag(traits).Keys == traits.Keys;
    SortedIsListing(traits.Keys, keys);
    out := WriteTraits(traits, SortNames(keys));
  }

  // ---------------------------------------------------------------- read back

  /** Below this, the most significant byte of a 64-bit counter is zero. */
  const TOP_BYTE_CLEAR: nat := 0x100_0000_0000_0000

  /** Text without NULs, and objects of less than 2^56 bytes. */
  predicate Plain(c: Content) {
    match c
    case Inline(body) => NulFree(body)
    case External(ref) => Clean(ref.digest) && Clean(ref.namespace) && ref.byteCount < TOP_BYTE_CLEAR
  }

  predicate PlainBag(bag: map<string, Content>) {
    forall k :: k in bag ==> k != "" && Clean(k) && Plain(bag[k])
  }

  lemma {:induction false} TopByteZero(n: nat, width: nat)
    requires width > 0 && Fits(n, width - 1)
    ensures BigEndian(n, width)[0] == 0
  {
    if width > 1 {
      TopByteZero(n / 256, width - 1);
    }
  }

  lemma CountTopZero(n: nat)
    requires n < TOP_BYTE_CLEAR
    ensures BE64(n)[0] == 0
  {
    U64Fits(n * 256);
    assert n * 256 / 256 == n;
    TopByteZero(n, 8);
  }

  /** Contents that go on with a key or the end of the bag can be told apart. */
  lemma SplitContent(c: Content, rest: Bytes, d: Content, rest': Bytes)
    requires Plain(c) && Plain(d)
    requires rest == [] || rest[0] != SEP
    requires rest' == [] || rest'[0] != SEP
    requires ContentBytes(c) + [SEP] + rest == ContentBytes(d) + [SEP] + rest'
    ensures c == d && rest == rest'
  {
    match (c, d)
    case (Inline(a), Inline(b)) => SplitField(a, rest, b, rest');
    case (External(a), External(b)) => SplitObject(a, rest, b, rest');
    case (Inline(a), External(b)) => NotAnObject(a, rest, b, rest');
    case (External(a), Inline(b)) => NotAnObject(b, rest', a, rest);
  }

  lemma ObjectWithRest(ref: ObjectRef, rest: Bytes)
    ensures ObjectRefBytes(ref) + [SEP] + rest
         == Utf8(ref.digest) + [SEP] + (BE64(ref.byteCount) + ([SEP] + (Utf8(ref.namespace) + [SEP] + rest)))
  {
  }

  lemma SplitObject(a: ObjectRef, rest: Bytes, b: ObjectRef, rest': Bytes)
    requires Plain(External(a)) && Plain(External(b))
    requires ObjectRefBytes(a) + [SEP] + rest == ObjectRefBytes(b) + [SEP] + rest'
    ensures a == b && rest == rest'
  {
    ObjectWithRest(a, rest);
    ObjectWithRest(b, rest');
    var named, named' := Utf8(a.namespace) + [SEP] + rest, Utf8(b.namespace) + [SEP] + rest';
    SplitText(a.digest, BE64(a.byteCount) + ([SEP] + named), b.digest, BE64(b.byteCount) + ([SEP] + named'));
    SplitCount(a.byteCount, [SEP] + named, b.byteCount, [SEP] + named');
    assert named == ([SEP] + named)[1..] && named' == ([SEP] + named')[1..];
    SplitText(a.namespace, rest, b.namespace, rest');
  }

  /** After an object's digest comes a zero byte; after an inline body, a key. */
  lemma NotAnObject(body: Bytes, rest: Bytes, ref: ObjectRef, rest': Bytes)
    requires NulFree(body) && Plain(External(ref)) && (rest == [] || rest[0] != SEP)
    ensures body + [SEP] + rest != ObjectRefBytes(ref) + [SEP] + rest'
  {
    if body + [SEP] + rest == ObjectRefBytes(ref) + [SEP] + rest' {
      Utf8Clean(ref.digest);
      ObjectWithRest(ref, rest');
      CountTopZero(ref.byteCount);
      SplitField(body, rest, Utf8(ref.digest), BE64(ref.byteCount) + ([SEP] + (Utf8(ref.namespace) + [SEP] + rest')));
      assert false;
    }
  }

  lemma KeyFirst(bag: map<string, Content>, keys: seq<string>)
    requires PlainBag(bag) && forall i :: 0 <= i < |keys| ==> keys[i] in bag
    ensures var e := EncodeInOrder(bag, keys); e == [] || e[0] != SEP
    ensures keys == [] <==> EncodeInOrder(bag, keys) == []
  {
    if keys != [] {
      Utf8Clean(keys[0]);
      assert Utf8(keys[0]) != [] && Utf8(keys[0])[0] in Utf8(keys[0]);
    }
  }

  lemma SplitTrait(k: string, c: Content, rest: Bytes, k': string, c': Content, rest': Bytes)
    requires Clean(k) && Clean(k') && Plain(c) && Plain(c')
    requires (rest == [] || rest[0] != SEP) && (rest' == [] || rest'[0] != SEP)
    requires Utf8(k) + [SEP] + (ContentBytes(c) + [SEP] + rest) == Utf8(k') + [SEP] + (ContentBytes(c') + [SEP] + rest')
    ensures k == k' && c == c' && rest == rest'
  {
    SplitText(k, ContentBytes(c) + [SEP] + rest, k', ContentBytes(c') + [SEP] + rest');
    SplitContent(c, rest, c', rest');
  }

  lemma {:induction false} OrderedInjective(bag: map<string, Content>, keys: seq<string>, bag': map<string, Content>,
                                            keys': seq<string>)
    requires PlainBag(bag) && forall i :: 0 <= i < |keys| ==> keys[i] in bag
    requires PlainBag(bag') && forall i :: 0 <= i < |keys'| ==> keys'[i] in bag'
    requires EncodeInOrder(bag, keys) == EncodeInOrder(bag', keys')
    ensures keys == keys' && forall i :: 0 <= i < |keys| ==> bag[keys[i]] == bag'[keys'[i]]
    decreases |keys|
  {
    KeyFirst(bag, keys);
    KeyFirst(bag', keys');
    if keys != [] {
      var k, k', more, more' := keys[0], keys'[0], keys[1..], keys'[1..];
      KeyFirst(bag, more);
      KeyFirst(bag', more');
      SplitTrait(k, bag[k], EncodeInOrder(bag, more), k', bag'[k'], EncodeInOrder(bag', more'));
      OrderedInjective(bag, more, bag', more');
      assert keys == [k] + more && keys' == [k'] + more';
    }
  }

  /** Bags listed alike, with the same content in each place, are the same. */
  lemma SameListing(bag: map<string, Content>, bag': map<string, Content>)
    requires Listing(bag.Keys) == Listing(bag'.Keys)
    requires var keys := Listing(bag.Keys); forall i :: 0 <= i < |keys| ==> bag[keys[i]] == bag'[keys[i]]
    ensures bag == bag'
  {
    var keys := Listing(bag.Keys);
    forall k
      ensures k in bag <==> k in bag'
      ensures k in bag ==> bag[k] == bag'[k]
    {
      Listed(bag.Keys, k);
      Listed(bag'.Keys, k);
      if k in bag {
        var i :| 0 <= i < |keys| && keys[i] == k;
      }
    }
  }

  /** Plain bags with the same canonical bytes say the same. */
  lemma CanonicalInjective(bag: map<string, Content>, bag': map<string, Content>)
    requires PlainBag(bag) && PlainBag(bag') && CanonicalBytes(bag) == CanonicalBytes(bag')
    ensures bag == bag'
  {
    OrderedInjective(bag, Listing(bag.Keys), bag', Listing(bag'.Keys));
    SameListing(bag, bag');
  }

  // ---------------------------------------------------------------- contracts

  function ContractFields(mediaType: string, schema: string, version: string, compatible: seq<string>): seq<string> {
    [mediaType, schema, version] + compatible
  }

  /** What a contract digest hashes: every field closed by a NUL. */
  function ContractBytes(mediaType: string, schema: string, version: string, compatible: seq<string>): Bytes {
    TextBytes(ContractFields(mediaType, schema, version, compatible))
  }

  predicate AllClean(fields: seq<string>) {
    forall i :: 0 <= i < |fields| ==> Clean(fields[i])
  }

  lemma ContractBytesInjective(a: Contract, b: Contract)
    requires AllClean(ContractFields(a.mediaType, a.schema, a.version, a.compatibleWith))
    requires AllClean(ContractFields(b.mediaType, b.schema, b.version, b.compatibleWith))
    requires ContractBytes(a.mediaType, a.schema, a.version, a.compatibleWith)
          == ContractBytes(b.mediaType, b.schema, b.version, b.compatibleWith)
    ensures a.mediaType == b.mediaType && a.schema == b.schema && a.version == b.version
    ensures a.compatibleWith == b.compatibleWith
  {
    var fs := ContractFields(a.mediaType, a.schema, a.version, a.compatibleWith);
    var gs := ContractFields(b.mediaType, b.schema, b.version, b.compatibleWith);
    TextFieldsInjective(fs, gs);
    assert a.compatibleWith == fs[3..] && b.compatibleWith == gs[3..];
    assert fs[0] == gs[0] && fs[1] == gs[1] && fs[2] == gs[2];
  }

  // ---------------------------------------------------------------- addresses

  /** A hash with a hexadecimal result. Nothing more is said about it: every
    * statement about equal digests names the two inputs that would collide. */
  type Sha = Bytes -> string

  const HEX_DIGITS := "0123456789abcdef"

  predicate IsHex(d: string) {
    |d| == 64 && forall i :: 0 <= i < |d| ==> d[i] in HEX_DIGITS
  }

  const DIGEST_PREFIX := "sha256:"

  predicate IsDigest(d: string) {
    DIGEST_PREFIX <= d && IsHex(d[|DIGEST_PREFIX|..])
  }

  /** Two different inputs with one digest. */
  predicate Collides(sha: Sha, x: Bytes, y: Bytes) {
    x != y && sha(x) == sha(y)
  }

  lemma PrefixedEqual(a: string, b: string)
    requires DIGEST_PREFIX + a == DIGEST_PREFIX + b
    ensures a == b
  {
    assert a == (DIGEST_PREFIX + a)[|DIGEST_PREFIX|..] && b == (DIGEST_PREFIX + b)[|DIGEST_PREFIX|..];
  }

  /** The kernel's addresses, spelled out. */
  ghost function AddressesBy(sha: Sha): Hashes {
    Hashes(
      traits => DIGEST_PREFIX + sha(CanonicalBytes(Bag(traits))),
      data => DIGEST_PREFIX + sha(data),
      (mediaType, schema, version, compatible) =>
        DIGEST_PREFIX + sha(ContractBytes(mediaType, schema, version, compatible)),
      IsDigest)
  }

  /** Putting plain content and reading it back gives the same content, whoever
    * stored it first, or exhibits a hash collision. */
  lemma PutReadsBack(sha: Sha, policy: StorePolicy, calls: seq<Call>, traits: map<string, Trait>, about: seq<string>)
    ensures var config := Config(AddressesBy(sha), policy);
      var put := PutArtifact(config.hashes, policy, After(config, calls), traits, about);
      put.1.Success? ==>
        var stored := Bag(put.0.artifacts[put.1.value].traits);
        PlainBag(Bag(traits)) && PlainBag(stored) ==>
          stored == Bag(traits) || Collides(sha, CanonicalBytes(stored), CanonicalBytes(Bag(traits)))
  {
    var config := Config(AddressesBy(sha), policy);
    var put := PutArtifact(config.hashes, policy, After(config, calls), traits, about);
    if put.1.Success? {
      ReadBack(config, calls, traits, about);
      var stored := put.0.artifacts[put.1.value].traits;
      if PlainBag(Bag(traits)) && PlainBag(Bag(stored)) {
        PrefixedEqual(sha(CanonicalBytes(Bag(stored))), sha(CanonicalBytes(Bag(traits))));
        if CanonicalBytes(Bag(stored)) == CanonicalBytes(Bag(traits)) {
          CanonicalInjective(Bag(stored), Bag(traits));
        }
      }
    }
  }

  /** In a reachable store, one content has one address: whatever was put twice,
    * inline or by reference, is stored once. */
  lemma OneAddressPerContent(sha: Sha, policy: StorePolicy, calls: seq<Call>, a: string, b: string)
    requires var state := After(Config(AddressesBy(sha), policy), calls);
      a in state.artifacts && b in state.artifacts && Bag(state.artifacts[a].traits) == Bag(state.artifacts[b].traits)
    ensures a == b
  {
    var config := Config(AddressesBy(sha), policy);
    HistoryIntact(config, calls);
    var state := After(config, calls);
    assert Addressed(config, a, state.artifacts[a]) && Addressed(config, b, state.artifacts[b]);
  }
}
