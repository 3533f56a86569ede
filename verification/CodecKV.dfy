// A key-value bucket behind key and value codecs, and the plain bucket it behaves like.
module CodecKV {
  import opened Tokens
  import opened Names
  import opened Base64
  import opened KeyCodecs
  import opened Chains

  // The bucket

  /** The last message under a key; a deletion leaves a marker with a revision of its own. */
  datatype Entry = Entry(value: Text, revision: nat, live: bool)

  datatype Bucket = Bucket(entries: map<Text, Entry>, last: nat)

  datatype KVError =
    | InvalidKey | NotFound | KeyExists | WrongRevision | NoKeysFound
    | KeyEncodeFailed | ValueEncodeFailed | KeyDecodeFailed | WildcardNotSupported | FilterEncodeFailed

  datatype Op = Put(key: Text, value: Text) | Get(key: Text) | Create(key: Text, value: Text)
    | Update(key: Text, value: Text, revision: nat) | Delete(key: Text) | Keys

  datatype Reply =
    | Revision(revision: nat)
    | Got(key: Text, value: Text, revision: nat)
    | Done
    | KeySet(keys: set<Text>)
    | Failed(error: KVError)

  function Current(b: Bucket, key: Text): nat { if key in b.entries then b.entries[key].revision else 0 }

  predicate IsLive(b: Bucket, key: Text) { key in b.entries && b.entries[key].live }

  function LiveKeys(b: Bucket): set<Text> { set k | k in b.entries && b.entries[k].live }

  function Stored(b: Bucket, key: Text, value: Text, live: bool): Bucket {
    Bucket(b.entries[key := Entry(value, b.last + 1, live)], b.last + 1)
  }

  /** One operation on a bucket that takes the keys `valid` allows. */
  function Step(b: Bucket, op: Op, valid: Text -> bool): (Bucket, Reply) {
    if !op.Keys? && !valid(op.key) then (b, Failed(InvalidKey))
    else match op
      case Put(k, v) => (Stored(b, k, v, true), Revision(b.last + 1))
      case Get(k) => (b, if IsLive(b, k) then Got(k, b.entries[k].value, b.entries[k].revision) else Failed(NotFound))
      case Create(k, v) =>
        if IsLive(b, k) then (b, Failed(KeyExists)) else (Stored(b, k, v, true), Revision(b.last + 1))
      case Update(k, v, r) =>
        if Current(b, k) == r then (Stored(b, k, v, true), Revision(b.last + 1)) else (b, Failed(WrongRevision))
      case Delete(k) => (Stored(b, k, [], false), Done)
      case Keys => (b, if LiveKeys(b) == {} then Failed(NoKeysFound) else KeySet(LiveKeys(b)))
  }

  // The wrapper

  /** kvEntry.Key: the key asked for, or the decoded stored key, or that key as it is. */
  function EntryKey(kc: KeyCodec, original: Text, stored: Text): Text {
    if original != [] then original
    else match kc.decode(stored) case Ok(k) => k case Err(_) => stored
  }

  /** kvEntry.Value; no data at all is passed on as it is. */
  function EntryValue(vc: ValueCodec, stored: Text): Text {
    if stored == [] then [] else match vc.decode(stored) case Ok(v) => v case Err(_) => stored
  }

  function DecodeAll(kc: KeyCodec, keys: set<Text>): Reply {
    if forall k :: k in keys ==> kc.decode(k).Ok? then KeySet(set k | k in keys :: kc.decode(k).value)
    else Failed(KeyDecodeFailed)
  }

  function WrappedStep(b: Bucket, op: Op, kc: KeyCodec, vc: ValueCodec, valid: Text -> bool): (Bucket, Reply) {
    if op.Keys? then
      match Step(b, Keys, valid).1
      case KeySet(keys) => (b, DecodeAll(kc, keys))
      case r => (b, r)
    else
      match kc.encode(op.key)
      case Err(_) => (b, Failed(KeyEncodeFailed))
      case Ok(k) =>
        match op
        case Get(key) =>
          (match Step(b, Get(k), valid)
           case (b', Got(stored, v, r)) => (b', Got(EntryKey(kc, key, stored), EntryValue(vc, v), r))
           case r => r)
        case Delete(_) => Step(b, Delete(k), valid)
        case Put(_, value) => (match vc.encode(value)
          case Err(_) => (b, Failed(ValueEncodeFailed))
          case Ok(v) => Step(b, Put(k, v), valid))
        case Create(_, value) => (match vc.encode(value)
          case Err(_) => (b, Failed(ValueEncodeFailed))
          case Ok(v) => Step(b, Create(k, v), valid))
        case Update(_, value, r) => (match vc.encode(value)
          case Err(_) => (b, Failed(ValueEncodeFailed))
          case Ok(v) => Step(b, Update(k, v, r), valid))
  }

  class KeyValue {
    var entries: map<Text, Entry>
    var last: nat
    const valid: Text -> bool

    function State(): Bucket
      reads this
    {
      Bucket(entries, last)
    }

    constructor (valid: Text -> bool)
      ensures State() == EMPTY && this.valid == valid
    {
      entries, last, this.valid := map[], 0, valid;
    }

    method Do(op: Op) returns (r: Reply)
      modifies this
      ensures (State(), r) == Step(old(State()), op, valid)
    {
      var (b, reply) := Step(State(), op, valid);
      entries, last := b.entries, b.last;
      r := reply;
    }

    /** The live keys in some order, each once. */
    method ListKeys() returns (keys: seq<Text>)
      ensures Elements(keys) == LiveKeys(State())
    {
      keys := [];
      var rest := LiveKeys(State());
      while rest != {}
        invariant Elements(keys) + rest == LiveKeys(State())
      {
        var k :| k in rest;
        assert Elements(keys + [k]) == Elements(keys) + {k};
        keys, rest := keys + [k], rest - {k};
      }
    }
  }

  /** keyValue, the wrapper. */
  class CodecKeyValue {
    const kv: KeyValue
    const keyCodec: KeyCodec
    const valueCodec: ValueCodec

    constructor (kv: KeyValue, keyCodec: KeyCodec, valueCodec: ValueCodec)
      ensures this.kv == kv && this.keyCodec == keyCodec && this.valueCodec == valueCodec
    {
      this.kv, this.keyCodec, this.valueCodec := kv, keyCodec, valueCodec;
    }

    method Put(key: Text, value: Text) returns (r: Reply)
      modifies kv
      ensures (kv.State(), r) == WrappedStep(old(kv.State()), Op.Put(key, value), keyCodec, valueCodec, kv.valid)
    {
      var k := keyCodec.encode(key);
      if k.Err? { return Failed(KeyEncodeFailed); }
      var v := valueCodec.encode(value);
      if v.Err? { return Failed(ValueEncodeFailed); }
      r := kv.Do(Op.Put(k.value, v.value));
    }

    method Get(key: Text) returns (r: Reply)
      modifies kv
      ensures (kv.State(), r) == WrappedStep(old(kv.State()), Op.Get(key), keyCodec, valueCodec, kv.valid)
    {
      var k := keyCodec.encode(key);
      if k.Err? { return Failed(KeyEncodeFailed); }
      r := kv.Do(Op.Get(k.value));
      if r.Got? {
        r := Got(EntryKey(keyCodec, key, r.key), EntryValue(valueCodec, r.value), r.revision);
      }
    }

    method Create(key: Text, value: Text) returns (r: Reply)
      modifies kv
      ensures (kv.State(), r) == WrappedStep(old(kv.State()), Op.Create(key, value), keyCodec, valueCodec, kv.valid)
    {
      var k := keyCodec.encode(key);
      if k.Err? { return Failed(KeyEncodeFailed); }
      var v := valueCodec.encode(value);
      if v.Err? { return Failed(ValueEncodeFailed); }
      r := kv.Do(Op.Create(k.value, v.value));
    }

    method Update(key: Text, value: Text, revision: nat) returns (r: Reply)
      modifies kv
      ensures (kv.State(), r)
        == WrappedStep(old(kv.State()), Op.Update(key, value, revision), keyCodec, valueCodec, kv.valid)
    {
      var k := keyCodec.encode(key);
      if k.Err? { return Failed(KeyEncodeFailed); }
      var v := valueCodec.encode(value);
      if v.Err? { return Failed(ValueEncodeFailed); }
      r := kv.Do(Op.Update(k.value, v.value, revision));
    }

    method Delete(key: Text) returns (r: Reply)
      modifies kv
      ensures (kv.State(), r) == WrappedStep(old(kv.State()), Op.Delete(key), keyCodec, valueCodec, kv.valid)
    {
      var k := keyCodec.encode(key);
      if k.Err? { return Failed(KeyEncodeFailed); }
      r := kv.Do(Op.Delete(k.value));
    }

    /** Keys: the list comes back decoded, in the bucket's order; None when one fails. */
    method Keys() returns (r: Reply, keys: seq<Text>)
      ensures (kv.State(), r) == WrappedStep(kv.State(), Op.Keys, keyCodec, valueCodec, kv.valid)
      ensures r.KeySet? ==> r.keys == Elements(keys)
    {
      keys := [];
      var encodedKeys := kv.ListKeys();
      if |encodedKeys| == 0 {
        assert LiveKeys(kv.State()) == {} by {
          assert forall k :: k in LiveKeys(kv.State()) ==> k in Elements(encodedKeys);
        }
        return Failed(NoKeysFound), [];
      }
      assert encodedKeys[0] in Elements(encodedKeys);
      for i := 0 to |encodedKeys|
        invariant |keys| == i
        invariant forall j :: 0 <= j < i ==> keyCodec.decode(encodedKeys[j]) == Ok(keys[j])
      {
        var d := keyCodec.decode(encodedKeys[i]);
        if d.Err? {
          assert encodedKeys[i] in Elements(encodedKeys);
          return Failed(KeyDecodeFailed), [];
        }
        keys := keys + [d.value];
      }
      var live := LiveKeys(kv.State());
      forall k | k in live ensures keyCodec.decode(k).Ok? && keyCodec.decode(k).value in Elements(keys) {
        assert k in Elements(encodedKeys);
        var j :| 0 <= j < |encodedKeys| && encodedKeys[j] == k;
        assert keys[j] in keys;
      }
      forall x | x in keys ensures exists k :: k in live && keyCodec.decode(k).value == x {
        var j :| 0 <= j < |keys| && keys[j] == x;
        assert encodedKeys[j] in Elements(encodedKeys);
      }
      r := KeySet(Elements(keys));
      assert Elements(keys) == set k | k in live :: keyCodec.decode(k).value;
    }
  }

  // What the operations mean

  predicate Stores(op: Op) { op.Put? || op.Create? || op.Update? }

  /** An operation that writes is refused for a key that is live already, or whose revision is
      not the one given; otherwise its value is what Get then finds, under a revision of its
      own, and no other key is touched. A deletion leaves nothing to find. */
  lemma BucketLaws(b: Bucket, op: Op, valid: Text -> bool, other: Text)
    requires !op.Keys? && !op.Get? && valid(op.key)
    ensures var (b', r) := Step(b, op, valid);
      var refused :=
        (op.Create? && Step(b, Get(op.key), valid).1.Got?) || (op.Update? && Current(b, op.key) != op.revision);
      && (refused <==> r.Failed?) && (refused ==> b' == b)
      && (!refused ==> b'.last == b.last + 1 && Current(b', op.key) == b'.last)
      && (!refused && Stores(op) ==>
            r == Revision(b'.last) && Step(b', Get(op.key), valid).1 == Got(op.key, op.value, b'.last))
      && (op.Delete? ==> r == Done && Step(b', Get(op.key), valid).1 == Failed(NotFound))
      && (other != op.key ==>
            Step(b', Get(other), valid).1 == Step(b, Get(other), valid).1 && Current(b', other) == Current(b, other))
  {
  }

  /** Keys lists exactly what Get finds. */
  lemma KeysLists(b: Bucket, key: Text, valid: Text -> bool)
    requires valid(key)
    ensures var r := Step(b, Keys, valid).1;
      Step(b, Get(key), valid).1.Got? <==> r.KeySet? && key in r.keys
  {
    assert key in LiveKeys(b) <==> IsLive(b, key);
  }

  /** What the codecs refuse does not reach the bucket, and the key is looked at first; what
      the bucket refuses changes nothing; and one key that cannot be decoded fails the list. */
  lemma FailuresExactly(b: Bucket, op: Op, kc: KeyCodec, vc: ValueCodec, valid: Text -> bool)
    ensures var (b', r) := WrappedStep(b, op, kc, vc, valid);
      && (r.Failed? ==> b' == b)
      && (r == Failed(KeyEncodeFailed) <==> !op.Keys? && kc.encode(op.key).Err?)
      && (r == Failed(ValueEncodeFailed) <==> Stores(op) && kc.encode(op.key).Ok? && vc.encode(op.value).Err?)
      && (r == Failed(KeyDecodeFailed) <==> op.Keys? && exists k :: k in LiveKeys(b) && kc.decode(k).Err?)
      && (r == Failed(InvalidKey) <==>
            && !op.Keys? && kc.encode(op.key).Ok? && (Stores(op) ==> vc.encode(op.value).Ok?)
            && !valid(kc.encode(op.key).value))
  {
  }

  /** What Get finds goes through the codecs: the key is the one asked for, unless that was
      empty, and a value that cannot be decoded is given as it is stored. */
  lemma GetDecodes(b: Bucket, key: Text, kc: KeyCodec, vc: ValueCodec, valid: Text -> bool)
    requires kc.encode(key).Ok? && valid(kc.encode(key).value) && IsLive(b, kc.encode(key).value)
    ensures var e := b.entries[kc.encode(key).value];
      var r := WrappedStep(b, Get(key), kc, vc, valid).1;
      && r.Got? && r.revision == e.revision && (key != [] ==> r.key == key)
      && (key == [] && kc.decode(kc.encode(key).value).Err? ==> r.key == kc.encode(key).value)
      && (if e.value != [] && vc.decode(e.value).Ok? then Ok(r.value) == vc.decode(e.value) else r.value == e.value)
  {
  }

  // Refinement

  ghost predicate ValueInverts(vc: ValueCodec, v: Text) {
    vc.encode(v).Ok? && vc.decode(vc.encode(v).value) == Ok(v) && (vc.encode(v).value == [] ==> v == [])
  }

  /** The codecs give back the keys and the values of an operation. */
  ghost predicate Covered(op: Op, kc: KeyCodec, vc: ValueCodec) {
    && (!op.Keys? ==> Inverts(kc, op.key))
    && (op.Put? || op.Create? || op.Update? ==> ValueInverts(vc, op.value))
  }

  function CodedEntry(e: Entry, vc: ValueCodec): Entry
    requires e.live ==> vc.encode(e.value).Ok?
  {
    if e.live then Entry(vc.encode(e.value).value, e.revision, true) else e
  }

  ghost predicate EntryRelated(plain: Bucket, coded: Bucket, key: Text, kc: KeyCodec, vc: ValueCodec)
    requires key in plain.entries
  {
    var e := plain.entries[key];
    && Inverts(kc, key)
    && (if e.live then ValueInverts(vc, e.value) else e.value == [])
    && kc.encode(key).value in coded.entries
    && coded.entries[kc.encode(key).value] == CodedEntry(e, vc)
  }

  /** The coded bucket holds exactly the plain one's entries, each encoded. */
  ghost predicate Related(plain: Bucket, coded: Bucket, kc: KeyCodec, vc: ValueCodec) {
    && plain.last == coded.last
    && (forall k :: k in plain.entries ==> EntryRelated(plain, coded, k, kc, vc))
    && (forall c :: c in coded.entries ==>
          kc.decode(c).Ok? && kc.decode(c).value in plain.entries && kc.encode(kc.decode(c).value) == Ok(c))
  }

  lemma SameKey(plain: Bucket, coded: Bucket, key: Text, kc: KeyCodec, vc: ValueCodec)
    requires Related(plain, coded, kc, vc) && Inverts(kc, key)
    ensures key in plain.entries <==> kc.encode(key).value in coded.entries
    ensures IsLive(plain, key) <==> IsLive(coded, kc.encode(key).value)
    ensures Current(plain, key) == Current(coded, kc.encode(key).value)
  {
    var c := kc.encode(key).value;
    if key in plain.entries { assert EntryRelated(plain, coded, key, kc, vc); }
  }

  lemma StoreRelated(plain: Bucket, coded: Bucket, key: Text, value: Text, live: bool, kc: KeyCodec, vc: ValueCodec)
    requires Related(plain, coded, kc, vc) && Inverts(kc, key)
    requires if live then ValueInverts(vc, value) else value == []
    ensures var c, v := kc.encode(key).value, if live then vc.encode(value).value else [];
      Related(Stored(plain, key, value, live), Stored(coded, c, v, live), kc, vc)
  {
    var c := kc.encode(key).value;
    var p', c' := Stored(plain, key, value, live), Stored(coded, c, if live then vc.encode(value).value else [], live);
    forall k | k in p'.entries ensures EntryRelated(p', c', k, kc, vc) {
      if k != key {
        assert EntryRelated(plain, coded, k, kc, vc);
        assert kc.encode(k).value != c;
      }
    }
  }

  lemma LiveKeysRelated(plain: Bucket, coded: Bucket, kc: KeyCodec, vc: ValueCodec)
    requires Related(plain, coded, kc, vc)
    ensures forall c :: c in LiveKeys(coded) ==> kc.decode(c).Ok? && kc.decode(c).value in LiveKeys(plain)
    ensures forall k :: k in LiveKeys(plain) ==>
      kc.encode(k).Ok? && kc.encode(k).value in LiveKeys(coded) && kc.decode(kc.encode(k).value) == Ok(k)
  {
    forall k | k in LiveKeys(plain)
      ensures kc.encode(k).Ok? && kc.encode(k).value in LiveKeys(coded) && kc.decode(kc.encode(k).value) == Ok(k)
    {
      assert EntryRelated(plain, coded, k, kc, vc);
    }
    forall c | c in LiveKeys(coded) ensures kc.decode(c).Ok? && kc.decode(c).value in LiveKeys(plain) {
      assert EntryRelated(plain, coded, kc.decode(c).value, kc, vc);
    }
  }

  lemma KeysAgree(plain: Bucket, coded: Bucket, kc: KeyCodec, vc: ValueCodec, valid: Text -> bool,
      plainValid: Text -> bool)
    requires Related(plain, coded, kc, vc)
    ensures WrappedStep(coded, Keys, kc, vc, valid).1 == Step(plain, Keys, plainValid).1
  {
    LiveKeysRelated(plain, coded, kc, vc);
    var ps, cs := LiveKeys(plain), LiveKeys(coded);
    if ps == {} {
      assert cs == {};
    } else {
      var k :| k in ps;
      assert kc.encode(k).value in cs;
      var decoded := set c | c in cs :: kc.decode(c).value;
      forall x ensures x in decoded <==> x in ps {
        if x in ps { assert kc.encode(x).value in cs && kc.decode(kc.encode(x).value).value == x; }
      }
      assert decoded == ps;
    }
  }

  /** The keys a plain bucket would refuse are those whose encodings are refused. */
  ghost predicate SameValidity(valid: Text -> bool, plainValid: Text -> bool, kc: KeyCodec) {
    forall k :: kc.encode(k).Ok? ==> (plainValid(k) <==> valid(kc.encode(k).value))
  }

  lemma StepRefines(plain: Bucket, coded: Bucket, op: Op, kc: KeyCodec, vc: ValueCodec, valid: Text -> bool,
      plainValid: Text -> bool)
    requires Related(plain, coded, kc, vc) && Covered(op, kc, vc) && SameValidity(valid, plainValid, kc)
    ensures var (p', r) := Step(plain, op, plainValid);
      var (c', r') := WrappedStep(coded, op, kc, vc, valid);
      r == r' && Related(p', c', kc, vc)
  {
    hide Related;
    if op.Keys? {
      KeysAgree(plain, coded, kc, vc, valid, plainValid);
    } else if plainValid(op.key) {
      SameKey(plain, coded, op.key, kc, vc);
      LastAgrees(plain, coded, kc, vc);
      if op.Put? || op.Create? || op.Update? {
        StoreRelated(plain, coded, op.key, op.value, true, kc, vc);
      } else if op.Delete? {
        StoreRelated(plain, coded, op.key, [], false, kc, vc);
      } else if IsLive(plain, op.key) {
        GetAgrees(plain, coded, op.key, kc, vc);
      }
    }
  }

  lemma LastAgrees(plain: Bucket, coded: Bucket, kc: KeyCodec, vc: ValueCodec)
    requires Related(plain, coded, kc, vc)
    ensures plain.last == coded.last
  {
  }

  lemma GetAgrees(plain: Bucket, coded: Bucket, k: Text, kc: KeyCodec, vc: ValueCodec)
    requires Related(plain, coded, kc, vc) && Inverts(kc, k) && IsLive(plain, k)
    ensures var c := kc.encode(k).value;
      && c in coded.entries && EntryKey(kc, k, c) == k
      && EntryValue(vc, coded.entries[c].value) == plain.entries[k].value
      && coded.entries[c].revision == plain.entries[k].revision
  {
    assert EntryRelated(plain, coded, k, kc, vc);
  }

  /** The bucket after some operations, and the replies to them. */
  function Play(b: Bucket, ops: seq<Op>, valid: Text -> bool): (Bucket, seq<Reply>)
    decreases ops
  {
    if ops == [] then (b, [])
    else
      var (b', r) := Step(b, ops[0], valid);
      var (b'', rs) := Play(b', ops[1..], valid);
      (b'', [r] + rs)
  }

  function WrappedPlay(b: Bucket, ops: seq<Op>, kc: KeyCodec, vc: ValueCodec, valid: Text -> bool): (Bucket, seq<Reply>)
    decreases ops
  {
    if ops == [] then (b, [])
    else
      var (b', r) := WrappedStep(b, ops[0], kc, vc, valid);
      var (b'', rs) := WrappedPlay(b', ops[1..], kc, vc, valid);
      (b'', [r] + rs)
  }

  lemma {:induction false} RunRefines(plain: Bucket, coded: Bucket, ops: seq<Op>, kc: KeyCodec, vc: ValueCodec,
      valid: Text -> bool, plainValid: Text -> bool)
    requires Related(plain, coded, kc, vc) && SameValidity(valid, plainValid, kc)
    requires forall op :: op in ops ==> Covered(op, kc, vc)
    ensures WrappedPlay(coded, ops, kc, vc, valid).1 == Play(plain, ops, plainValid).1
    ensures Related(Play(plain, ops, plainValid).0, WrappedPlay(coded, ops, kc, vc, valid).0, kc, vc)
    decreases ops
  {
    hide Related, Covered, Step, WrappedStep, SameValidity;
    if ops != [] {
      StepRefines(plain, coded, ops[0], kc, vc, valid, plainValid);
      assert forall op :: op in ops[1..] ==> op in ops;
      var plain', coded' := Step(plain, ops[0], plainValid).0, WrappedStep(coded, ops[0], kc, vc, valid).0;
      RunRefines(plain', coded', ops[1..], kc, vc, valid, plainValid);
    }
  }

  const EMPTY := Bucket(map[], 0)

  /** From an empty bucket on, any run of operations through the codecs gets the replies of a
      plain bucket: values, revisions, errors and key sets. */
  lemma BehavesLikePlain(ops: seq<Op>, kc: KeyCodec, vc: ValueCodec, valid: Text -> bool, plainValid: Text -> bool)
    requires SameValidity(valid, plainValid, kc) && forall op :: op in ops ==> Covered(op, kc, vc)
    ensures WrappedPlay(EMPTY, ops, kc, vc, valid).1 == Play(EMPTY, ops, plainValid).1
    ensures Related(Play(EMPTY, ops, plainValid).0, WrappedPlay(EMPTY, ops, kc, vc, valid).0, kc, vc)
  {
    RunRefines(EMPTY, EMPTY, ops, kc, vc, valid, plainValid);
  }

  function Base64ValueCodec(): ValueCodec {
    ValueCodec(v => Ok(Encode(v)), v => match Decode(v) case Some(d) => Ok(d) case None => Err(BadBase64))
  }

  lemma Base64Covers(ops: seq<Op>)
    ensures forall op :: op in ops ==> Covered(op, Base64KeyCodec(), Base64ValueCodec())
  {
    forall op | op in ops ensures Covered(op, Base64KeyCodec(), Base64ValueCodec()) {
      if !op.Keys? { Base64KeyCodecFaithful(op.key); }
      if op.Put? || op.Create? || op.Update? { Base64Value(op.value); }
    }
  }

  /** With base64 on both sides there is no condition on keys or values at all. */
  lemma Base64BehavesLikePlain(ops: seq<Op>, valid: Text -> bool)
    ensures WrappedPlay(EMPTY, ops, Base64KeyCodec(), Base64ValueCodec(), valid).1
      == Play(EMPTY, ops, k => valid(EncodedKey(k))).1
  {
    Base64Covers(ops);
    BehavesLikePlain(ops, Base64KeyCodec(), Base64ValueCodec(), valid, k => valid(EncodedKey(k)));
  }

  // Watching and listing with filters

  /** How a filter takes keys: by tokens in a bucket, by elements for paths. */
  type Matching = (Text, Text) -> bool

  ghost predicate AnyFilter(m: Matching, filters: seq<Text>, key: Text) {
    exists i :: 0 <= i < |filters| && m(filters[i], key)
  }

  /** Options of a watch: no deletions, no entries from before, no values. */
  datatype WatchOpts = WatchOpts(ignoreDeletes: bool, updatesOnly: bool, metaOnly: bool)

  /** An entry as a watch delivers it; one that is not live is a deletion. */
  datatype Delivery = Delivery(key: Text, value: Text, revision: nat, live: bool)

  ghost predicate HasAt(b: Bucket, m: Matching, filters: seq<Text>, n: nat, key: Text) {
    key in b.entries && b.entries[key].revision == n && AnyFilter(m, filters, key)
  }

  function Shown(b: Bucket, key: Text): Delivery
    requires key in b.entries
  {
    Delivery(key, b.entries[key].value, b.entries[key].revision, b.entries[key].live)
  }

  /** The entry of revision n, if it is still the last of its key and the filters take it. */
  ghost function At(b: Bucket, m: Matching, filters: seq<Text>, n: nat): seq<Delivery> {
    if exists k :: HasAt(b, m, filters, n, k) then
      var k :| HasAt(b, m, filters, n, k);
      [Shown(b, k)]
    else []
  }

  ghost function UpTo(b: Bucket, m: Matching, filters: seq<Text>, n: nat): seq<Delivery> {
    if n == 0 then [] else UpTo(b, m, filters, n - 1) + At(b, m, filters, n)
  }

  function Marked(ds: seq<Delivery>): (r: seq<Option<Delivery>>)
    ensures |r| == |ds| && forall i :: 0 <= i < |ds| ==> r[i] == Some(ds[i])
  {
    seq(|ds|, i requires 0 <= i < |ds| => Some(ds[i]))
  }

  /** What changes from one bucket to the next deliver. */
  ghost function News(b: Bucket, b': Bucket, m: Matching, filters: seq<Text>): seq<Delivery> {
    if b'.last > b.last then At(b', m, filters, b'.last) else []
  }

  ghost function Later(b: Bucket, ops: seq<Op>, m: Matching, filters: seq<Text>, valid: Text -> bool): seq<Delivery>
    decreases ops
  {
    if ops == [] then []
    else var b' := Step(b, ops[0], valid).0; News(b, b', m, filters) + Later(b', ops[1..], m, filters, valid)
  }

  function Kept(d: Delivery, o: WatchOpts): seq<Delivery> {
    if o.ignoreDeletes && !d.live then [] else [if o.metaOnly then d.(value := []) else d]
  }

  /** What is left of a stream under the options. */
  function Chosen(ds: seq<Delivery>, o: WatchOpts): seq<Delivery> {
    if ds == [] then [] else Chosen(ds[..|ds| - 1], o) + Kept(ds[|ds| - 1], o)
  }

  /** What is there in the order of revisions, a marker, and then each change as it comes;
      updates alone come without the marker. */
  ghost function Stream(initial: seq<Delivery>, later: seq<Delivery>, o: WatchOpts): seq<Option<Delivery>> {
    (if o.updatesOnly then [] else Marked(Chosen(initial, o)) + [None]) + Marked(Chosen(later, o))
  }

  /** A filtered watch of a bucket on which `ops` are done afterwards. */
  ghost function Watch(b: Bucket, ops: seq<Op>, m: Matching, filters: seq<Text>, o: WatchOpts,
      valid: Text -> bool): seq<Option<Delivery>>
  {
    Stream(UpTo(b, m, filters, b.last), Later(b, ops, m, filters, valid), o)
  }

  /** The same for the bucket behind the codecs, as the bucket delivers it. */
  ghost function RawLater(b: Bucket, ops: seq<Op>, encoded: seq<Text>, kc: KeyCodec, vc: ValueCodec,
      valid: Text -> bool): seq<Delivery>
    decreases ops
  {
    if ops == [] then []
    else
      var b' := WrappedStep(b, ops[0], kc, vc, valid).0;
      News(b, b', KeyMatches, encoded) + RawLater(b', ops[1..], encoded, kc, vc, valid)
  }

  ghost function RawWatch(b: Bucket, ops: seq<Op>, encoded: seq<Text>, o: WatchOpts, kc: KeyCodec, vc: ValueCodec,
      valid: Text -> bool): seq<Option<Delivery>>
  {
    Stream(UpTo(b, KeyMatches, encoded, b.last), RawLater(b, ops, encoded, kc, vc, valid), o)
  }

  /** kvEntry over a delivered entry. */
  function Decoded(d: Delivery, kc: KeyCodec, vc: ValueCodec): Delivery {
    d.(key := EntryKey(kc, [], d.key), value := EntryValue(vc, d.value))
  }

  function DecodedUpdate(u: Option<Delivery>, kc: KeyCodec, vc: ValueCodec): Option<Delivery> {
    match u case None => None case Some(d) => Some(Decoded(d, kc, vc))
  }

  function DecodedUpdates(us: seq<Option<Delivery>>, kc: KeyCodec, vc: ValueCodec): (r: seq<Option<Delivery>>)
    ensures |r| == |us|
    ensures forall i :: 0 <= i < |us| ==> r[i] == DecodedUpdate(us[i], kc, vc)
  {
    seq(|us|, i requires 0 <= i < |us| => DecodedUpdate(us[i], kc, vc))
  }

  /** kvWatcher.Updates: entries are wrapped one by one, and the marker is passed on. */
  method Updates(us: seq<Option<Delivery>>, kc: KeyCodec, vc: ValueCodec) returns (wrapped: seq<Option<Delivery>>)
    ensures wrapped == DecodedUpdates(us, kc, vc)
  {
    wrapped := [];
    for i := 0 to |us|
      invariant wrapped == DecodedUpdates(us[..i], kc, vc)
    {
      if us[i].None? {
        wrapped := wrapped + [None];
      } else {
        wrapped := wrapped + [Some(Decoded(us[i].value, kc, vc))];
      }
    }
    assert us[..|us|] == us;
  }

  predicate HasWildcardByte(key: Text) { STAR in key || GREATER in key }

  datatype FilterReply = Accepted(filter: Text) | Refused(error: KVError)

  function EncodeOneFilter(kc: KeyCodec, key: Text): FilterReply {
    match kc.filter
    case Some(encode) => (match encode(key) case Ok(f) => Accepted(f) case Err(_) => Refused(FilterEncodeFailed))
    case None =>
      if HasWildcardByte(key) then Refused(WildcardNotSupported)
      else match kc.encode(key) case Ok(f) => Accepted(f) case Err(_) => Refused(KeyEncodeFailed)
  }

  /** A codec that cannot encode filters refuses every filter with a star or a greater-than
      sign in it, and otherwise has it encoded as a key; one that can is asked, whatever is in
      the filter. */
  lemma FilterAcceptedExactly(kc: KeyCodec, key: Text)
    ensures var r := EncodeOneFilter(kc, key);
      var wild := exists i :: 0 <= i < |key| && key[i] as int in {'*' as int, '>' as int};
      && (r == Refused(WildcardNotSupported) <==> kc.filter.None? && wild)
      && (r == Refused(KeyEncodeFailed) <==> kc.filter.None? && !wild && kc.encode(key).Err?)
      && (r == Refused(FilterEncodeFailed) <==> kc.filter.Some? && kc.filter.value(key).Err?)
      && forall f :: r == Accepted(f) <==>
           if kc.filter.Some? then kc.filter.value(key) == Ok(f) else !wild && kc.encode(key) == Ok(f)
  {
    assert HasWildcardByte(key) <==> exists i :: 0 <= i < |key| && key[i] as int in {'*' as int, '>' as int} by {
      if STAR in key {
        var i :| 0 <= i < |key| && key[i] == STAR;
        assert key[i] as int in {'*' as int, '>' as int};
      } else if GREATER in key {
        var i :| 0 <= i < |key| && key[i] == GREATER;
        assert key[i] as int in {'*' as int, '>' as int};
      }
    }
  }

  /** What encoding these filters gives. */
  ghost predicate EncodedFilters(kc: KeyCodec, filters: seq<Text>, encoded: seq<Text>) {
    |encoded| == |filters| && forall i :: 0 <= i < |filters| ==> EncodeOneFilter(kc, filters[i]) == Accepted(encoded[i])
  }

  ghost predicate FirstRefused(kc: KeyCodec, filters: seq<Text>, i: int) {
    && 0 <= i < |filters| && !EncodeOneFilter(kc, filters[i]).Accepted?
    && forall j :: 0 <= j < i ==> EncodeOneFilter(kc, filters[j]).Accepted?
  }

  /** WatchFiltered up to the call on the bucket: the first filter that fails is reported. */
  method EncodeFilters(kc: KeyCodec, keys: seq<Text>) returns (error: Option<KVError>, encodedKeys: seq<Text>)
    ensures error.None? <==> forall i :: 0 <= i < |keys| ==> EncodeOneFilter(kc, keys[i]).Accepted?
    ensures error.None? ==> EncodedFilters(kc, keys, encodedKeys)
    ensures error.Some? ==>
      exists i :: FirstRefused(kc, keys, i) && EncodeOneFilter(kc, keys[i]) == Refused(error.value)
  {
    encodedKeys := [];
    if kc.filter.Some? {
      for i := 0 to |keys|
        invariant |encodedKeys| == i
        invariant forall j :: 0 <= j < i ==>
          EncodeOneFilter(kc, keys[j]) == Accepted(encodedKeys[j])
      {
        var encoded := kc.filter.value(keys[i]);
        if encoded.Err? {
          assert FirstRefused(kc, keys, i);
          return Some(FilterEncodeFailed), [];
        }
        encodedKeys := encodedKeys + [encoded.value];
      }
    } else {
      for i := 0 to |keys|
        invariant |encodedKeys| == i
        invariant forall j :: 0 <= j < i ==>
          EncodeOneFilter(kc, keys[j]) == Accepted(encodedKeys[j])
      {
        if STAR in keys[i] || GREATER in keys[i] {
          assert FirstRefused(kc, keys, i);
          return Some(WildcardNotSupported), [];
        }
        var encoded := kc.encode(keys[i]);
        if encoded.Err? {
          assert FirstRefused(kc, keys, i);
          return Some(KeyEncodeFailed), [];
        }
        encodedKeys := encodedKeys + [encoded.value];
      }
    }
    error := None;
  }

  /** The filter that goes to the bucket takes an encoded key exactly when the given filter
      takes the key. */
  ghost predicate Faithful(kc: KeyCodec, m: Matching, filter: Text, key: Text) {
    && EncodeOneFilter(kc, filter).Accepted? && kc.encode(key).Ok?
    && (KeyMatches(EncodeOneFilter(kc, filter).filter, kc.encode(key).value) <==> m(filter, key))
  }

  lemma {:induction false} TokensWithin(s: Text, b: Byte)
    requires b !in s
    ensures [b] !in Split(s, DOT)
  {
    if s != [] {
      TokensWithin(s[1..], b);
      var rest := Split(s[1..], DOT);
      assert ([s[0]] + rest[0])[0] != b;
      assert forall t :: t in rest[1..] ==> t in rest;
    }
  }

  /** A filter without wildcard bytes takes exactly the key that it is. */
  lemma LiteralFilter(filter: Text, key: Text)
    requires !HasWildcardByte(filter)
    ensures KeyMatches(filter, key) <==> filter == key
  {
    TokensWithin(filter, STAR);
    TokensWithin(filter, GREATER);
    SameMatches(Split(filter, DOT), Split(key, DOT));
    JoinOfSplit(filter, DOT);
    JoinOfSplit(key, DOT);
  }

  /** Without EncodeFilter: a filter that is accepted is a key, and stays one key's filter. */
  lemma FallbackFaithful(kc: KeyCodec, filter: Text, key: Text)
    requires kc.filter.None? && Inverts(kc, filter) && Inverts(kc, key)
    requires !HasWildcardByte(filter) && !HasWildcardByte(kc.encode(filter).value)
    ensures Faithful(kc, KeyMatches, filter, key)
  {
    LiteralFilter(filter, key);
    LiteralFilter(kc.encode(filter).value, kc.encode(key).value);
  }

  /** All filters are faithful on the keys that the codec gives back, but for some. */
  ghost predicate AllFaithful(kc: KeyCodec, m: Matching, filters: seq<Text>, but: set<Text>) {
    forall i, k :: 0 <= i < |filters| && Inverts(kc, k) && k !in but ==> Faithful(kc, m, filters[i], k)
  }

  ghost predicate Avoided(b: Bucket, but: set<Text>) { b.entries.Keys !! but }

  predicate OpAvoids(op: Op, but: set<Text>) { op.Keys? || op.key !in but }

  lemma StepAvoids(b: Bucket, op: Op, valid: Text -> bool, but: set<Text>)
    requires Avoided(b, but) && OpAvoids(op, but)
    ensures Avoided(Step(b, op, valid).0, but)
  {
  }

  lemma FiltersAgree(kc: KeyCodec, m: Matching, filters: seq<Text>, encoded: seq<Text>, but: set<Text>, key: Text)
    requires AllFaithful(kc, m, filters, but) && Inverts(kc, key) && key !in but && EncodedFilters(kc, filters, encoded)
    ensures AnyFilter(KeyMatches, encoded, kc.encode(key).value) <==> AnyFilter(m, filters, key)
  {
    forall i | 0 <= i < |filters|
      ensures KeyMatches(encoded[i], kc.encode(key).value) <==> m(filters[i], key)
    {
      assert Faithful(kc, m, filters[i], key);
    }
  }

  lemma EntryDelivered(plain: Bucket, coded: Bucket, k: Text, kc: KeyCodec, vc: ValueCodec)
    requires Related(plain, coded, kc, vc) && k in plain.entries
    ensures Inverts(kc, k)
    ensures var c := kc.encode(k).value;
      && c in coded.entries && EntryKey(kc, [], c) == k
      && EntryValue(vc, coded.entries[c].value) == plain.entries[k].value
      && coded.entries[c].revision == plain.entries[k].revision && coded.entries[c].live == plain.entries[k].live
  {
    assert EntryRelated(plain, coded, k, kc, vc);
  }

  /** No two entries have the same revision. */
  ghost predicate Orderly(b: Bucket) {
    && (forall k :: k in b.entries ==> 1 <= b.entries[k].revision <= b.last)
    && (forall j, k :: j in b.entries && k in b.entries && b.entries[j].revision == b.entries[k].revision ==> j == k)
  }

  lemma StepOrderly(b: Bucket, op: Op, valid: Text -> bool)
    requires Orderly(b)
    ensures Orderly(Step(b, op, valid).0) && Step(b, op, valid).0.last >= b.last
  {
  }

  lemma AtIs(b: Bucket, m: Matching, filters: seq<Text>, n: nat, key: Text)
    requires Orderly(b) && HasAt(b, m, filters, n, key)
    ensures At(b, m, filters, n) == [Shown(b, key)]
  {
  }

  /** Before the marker a watch delivers exactly the entries that its filters take. */
  lemma {:induction false} UpToExactly(b: Bucket, m: Matching, filters: seq<Text>, n: nat, d: Delivery)
    requires Orderly(b)
    ensures d in UpTo(b, m, filters, n) <==>
      d.key in b.entries && d == Shown(b, d.key) && d.revision <= n && AnyFilter(m, filters, d.key)
  {
    hide AnyFilter;
    if n > 0 {
      UpToExactly(b, m, filters, n - 1, d);
      if k :| HasAt(b, m, filters, n, k) { AtIs(b, m, filters, n, k); }
      assert d.key in b.entries && d == Shown(b, d.key) && d.revision == n && AnyFilter(m, filters, d.key) ==>
          HasAt(b, m, filters, n, d.key);
    }
  }

  ghost predicate InOrder(ds: seq<Delivery>) { forall i, j :: 0 <= i < j < |ds| ==> ds[i].revision < ds[j].revision }

  /** They come in the order of their revisions. */
  lemma {:induction false} UpToInOrder(b: Bucket, m: Matching, filters: seq<Text>, n: nat)
    requires Orderly(b)
    ensures InOrder(UpTo(b, m, filters, n))
  {
    hide AnyFilter;
    if n > 0 {
      UpToInOrder(b, m, filters, n - 1);
      var ds := UpTo(b, m, filters, n - 1);
      forall i | 0 <= i < |ds| ensures ds[i].revision < n { UpToExactly(b, m, filters, n - 1, ds[i]); }
      if k :| HasAt(b, m, filters, n, k) {
        AtIs(b, m, filters, n, k);
        assert UpTo(b, m, filters, n) == ds + [Shown(b, k)];
      } else {
        assert At(b, m, filters, n) == [];
        assert UpTo(b, m, filters, n) == ds;
      }
    }
  }

  /** After it each operation that stores something is delivered, as it is stored, exactly if
      the filters take its key, and the others deliver nothing. */
  lemma NewsExactly(b: Bucket, op: Op, m: Matching, filters: seq<Text>, valid: Text -> bool)
    requires Orderly(b)
    ensures var (b', r) := Step(b, op, valid);
      var stored := !op.Keys? && !op.Get? && !r.Failed?;
      News(b, b', m, filters) ==
        if stored && AnyFilter(m, filters, op.key) then
          [Delivery(op.key, if op.Delete? then [] else op.value, b.last + 1, !op.Delete?)]
        else []
  {
    hide AnyFilter;
    var (b', r) := Step(b, op, valid);
    StepOrderly(b, op, valid);
    if b'.last > b.last && AnyFilter(m, filters, op.key) {
      AtIs(b', m, filters, b'.last, op.key);
    }
  }

  /** Options leave out deletions and empty values, one entry at a time and in order. */
  lemma {:induction false} ChosenExactly(a: seq<Delivery>, b: seq<Delivery>, d: Delivery, o: WatchOpts)
    ensures Chosen(a + b, o) == Chosen(a, o) + Chosen(b, o)
    ensures Chosen([d], o) == if o.ignoreDeletes && !d.live then []
      else [Delivery(d.key, if o.metaOnly then [] else d.value, d.revision, d.live)]
  {
    hide Chosen, Kept;
    ChosenOne(d, o);
    if b == [] {
      assert Chosen([], o) == [] by { NoneChosen(o); }
      assert a + b == a;
    } else {
      var init, last := b[..|b| - 1], b[|b| - 1];
      ChosenExactly(a, init, d, o);
      ChosenLast(b, o);
      ChosenLast(a + b, o);
      assert (a + b)[..|a + b| - 1] == a + init && (a + b)[|a + b| - 1] == last;
    }
  }

  lemma NoneChosen(o: WatchOpts)
    ensures Chosen([], o) == []
  {
  }

  lemma ChosenLast(ds: seq<Delivery>, o: WatchOpts)
    requires ds != []
    ensures Chosen(ds, o) == Chosen(ds[..|ds| - 1], o) + Kept(ds[|ds| - 1], o)
  {
  }

  lemma ChosenOne(d: Delivery, o: WatchOpts)
    ensures Chosen([d], o) == if o.ignoreDeletes && !d.live then []
      else [Delivery(d.key, if o.metaOnly then [] else d.value, d.revision, d.live)]
  {
    assert [d][..0] == [] && Chosen([d][..0], o) == [];
  }

  ghost predicate Between(ds: seq<Delivery>, low: int, high: int) {
    forall i :: 0 <= i < |ds| ==> low < ds[i].revision <= high
  }

  lemma {:induction false} ChosenBetween(ds: seq<Delivery>, o: WatchOpts, low: int, high: int)
    requires Between(ds, low, high)
    ensures Between(Chosen(ds, o), low, high)
  {
    if ds != [] { ChosenBetween(ds[..|ds| - 1], o, low, high); }
  }

  lemma {:induction false} LaterBetween(b: Bucket, ops: seq<Op>, m: Matching, filters: seq<Text>, valid: Text -> bool)
    requires Orderly(b)
    ensures Play(b, ops, valid).0.last >= b.last
    ensures Between(Later(b, ops, m, filters, valid), b.last, Play(b, ops, valid).0.last)
    decreases ops
  {
    hide AnyFilter, At, Step, Orderly;
    if ops != [] {
      var b' := Step(b, ops[0], valid).0;
      StepOrderly(b, ops[0], valid);
      NewsBetween(b, b', m, filters);
      LaterBetween(b', ops[1..], m, filters, valid);
    }
  }

  lemma NewsBetween(b: Bucket, b': Bucket, m: Matching, filters: seq<Text>)
    requires Orderly(b') && b'.last >= b.last
    ensures Between(News(b, b', m, filters), b.last, b'.last)
  {
    hide AnyFilter;
    if k :| HasAt(b', m, filters, b'.last, k) { AtIs(b', m, filters, b'.last, k); }
  }

  /** The marker stands between what was there before and what is changed later; a watch for
      updates only has neither the marker nor anything from before. */
  lemma MarkerExactly(b: Bucket, ops: seq<Op>, m: Matching, filters: seq<Text>, o: WatchOpts, valid: Text -> bool)
      returns (n: nat)
    requires Orderly(b)
    ensures var w := Watch(b, ops, m, filters, o, valid);
      if o.updatesOnly then w == Marked(Chosen(Later(b, ops, m, filters, valid), o))
      else
        && n < |w| && w[n] == None && n == |Chosen(UpTo(b, m, filters, b.last), o)|
        && (forall i :: 0 <= i < n ==> w[i].Some? && w[i].value.revision <= b.last)
        && (forall i :: n < i < |w| ==> w[i].Some? && w[i].value.revision > b.last)
  {
    hide AnyFilter, Orderly, UpTo, Later, Chosen;
    var initial, later := UpTo(b, m, filters, b.last), Later(b, ops, m, filters, valid);
    forall i | 0 <= i < |initial| ensures 0 < initial[i].revision <= b.last { EntryBetween(b, m, filters, initial[i]); }
    ChosenBetween(initial, o, 0, b.last);
    LaterBetween(b, ops, m, filters, valid);
    ChosenBetween(later, o, b.last, Play(b, ops, valid).0.last);
    n := |Chosen(initial, o)|;
    assert o.updatesOnly ==> [] + Marked(Chosen(later, o)) == Marked(Chosen(later, o));
  }

  lemma EntryBetween(b: Bucket, m: Matching, filters: seq<Text>, d: Delivery)
    requires Orderly(b) && d in UpTo(b, m, filters, b.last)
    ensures 0 < d.revision <= b.last
  {
    hide UpTo;
    UpToExactly(b, m, filters, b.last, d);
  }

  /** A bucket, the bucket behind the codecs that holds the same, and filters for both. */
  ghost predicate Comparable(plain: Bucket, coded: Bucket, m: Matching, filters: seq<Text>, encoded: seq<Text>,
      but: set<Text>, kc: KeyCodec, vc: ValueCodec)
  {
    && Related(plain, coded, kc, vc) && Orderly(plain) && Avoided(plain, but)
    && AllFaithful(kc, m, filters, but) && EncodedFilters(kc, filters, encoded)
  }

  /** The encodings of the two buckets' entries of one revision belong together. */
  lemma AtAgrees(plain: Bucket, coded: Bucket, m: Matching, filters: seq<Text>, encoded: seq<Text>, but: set<Text>,
      n: nat, kc: KeyCodec, vc: ValueCodec)
    requires Comparable(plain, coded, m, filters, encoded, but, kc, vc)
    ensures DecodedUpdates(Marked(At(coded, KeyMatches, encoded, n)), kc, vc) == Marked(At(plain, m, filters, n))
  {
    hide KeyMatches, AllFaithful, EncodedFilters, AnyFilter;
    RelatedOrderly(plain, coded, kc, vc);
    if k :| HasAt(plain, m, filters, n, k) {
      EntryDelivered(plain, coded, k, kc, vc);
      FiltersAgree(kc, m, filters, encoded, but, k);
      AtIs(plain, m, filters, n, k);
      AtIs(coded, KeyMatches, encoded, n, kc.encode(k).value);
    } else {
      forall c | HasAt(coded, KeyMatches, encoded, n, c) ensures HasAt(plain, m, filters, n, kc.decode(c).value) {
        EntryDelivered(plain, coded, kc.decode(c).value, kc, vc);
        FiltersAgree(kc, m, filters, encoded, but, kc.decode(c).value);
      }
    }
  }

  lemma RelatedOrderly(plain: Bucket, coded: Bucket, kc: KeyCodec, vc: ValueCodec)
    requires Related(plain, coded, kc, vc) && Orderly(plain)
    ensures Orderly(coded)
  {
    forall c | c in coded.entries
      ensures coded.entries[c].revision == plain.entries[kc.decode(c).value].revision
    {
      EntryDelivered(plain, coded, kc.decode(c).value, kc, vc);
    }
  }

  lemma UpdatesAppend(a: seq<Option<Delivery>>, b: seq<Option<Delivery>>, kc: KeyCodec, vc: ValueCodec)
    ensures DecodedUpdates(a + b, kc, vc) == DecodedUpdates(a, kc, vc) + DecodedUpdates(b, kc, vc)
  {
  }

  lemma MarkedAppend(a: seq<Delivery>, b: seq<Delivery>)
    ensures Marked(a + b) == Marked(a) + Marked(b)
  {
  }

  lemma {:induction false} UpToAgrees(plain: Bucket, coded: Bucket, m: Matching, filters: seq<Text>,
      encoded: seq<Text>, but: set<Text>, n: nat, kc: KeyCodec, vc: ValueCodec)
    requires Comparable(plain, coded, m, filters, encoded, but, kc, vc)
    ensures DecodedUpdates(Marked(UpTo(coded, KeyMatches, encoded, n)), kc, vc) == Marked(UpTo(plain, m, filters, n))
  {
    hide Comparable, At, DecodedUpdates, Marked;
    if n == 0 {
      NothingDecoded(kc, vc);
    } else {
      UpToAgrees(plain, coded, m, filters, encoded, but, n - 1, kc, vc);
      AtAgrees(plain, coded, m, filters, encoded, but, n, kc, vc);
      MarkedAppend(UpTo(coded, KeyMatches, encoded, n - 1), At(coded, KeyMatches, encoded, n));
      MarkedAppend(UpTo(plain, m, filters, n - 1), At(plain, m, filters, n));
      UpdatesAppend(Marked(UpTo(coded, KeyMatches, encoded, n - 1)), Marked(At(coded, KeyMatches, encoded, n)), kc, vc);
    }
  }

  lemma NothingDecoded(kc: KeyCodec, vc: ValueCodec)
    ensures DecodedUpdates(Marked([]), kc, vc) == Marked([]) && DecodedUpdates([None], kc, vc) == [None]
  {
  }

  lemma StepComparable(plain: Bucket, coded: Bucket, op: Op, m: Matching, filters: seq<Text>, encoded: seq<Text>,
      but: set<Text>, kc: KeyCodec, vc: ValueCodec, valid: Text -> bool, plainValid: Text -> bool)
    requires Comparable(plain, coded, m, filters, encoded, but, kc, vc) && SameValidity(valid, plainValid, kc)
    requires Covered(op, kc, vc) && OpAvoids(op, but)
    ensures var plain', coded' := Step(plain, op, plainValid).0, WrappedStep(coded, op, kc, vc, valid).0;
      && Comparable(plain', coded', m, filters, encoded, but, kc, vc)
      && plain.last == coded.last && plain'.last == coded'.last
  {
    hide Related, Orderly, AllFaithful, EncodedFilters, Covered, Step, WrappedStep, SameValidity, Avoided, OpAvoids;
    StepRefines(plain, coded, op, kc, vc, valid, plainValid);
    StepOrderly(plain, op, plainValid);
    StepAvoids(plain, op, plainValid, but);
    LastAgrees(plain, coded, kc, vc);
    LastAgrees(Step(plain, op, plainValid).0, WrappedStep(coded, op, kc, vc, valid).0, kc, vc);
  }

  lemma {:induction false} LaterAgrees(plain: Bucket, coded: Bucket, ops: seq<Op>, m: Matching, filters: seq<Text>,
      encoded: seq<Text>, but: set<Text>, kc: KeyCodec, vc: ValueCodec, valid: Text -> bool, plainValid: Text -> bool)
    requires Comparable(plain, coded, m, filters, encoded, but, kc, vc) && SameValidity(valid, plainValid, kc)
    requires forall op :: op in ops ==> Covered(op, kc, vc) && OpAvoids(op, but)
    ensures DecodedUpdates(Marked(RawLater(coded, ops, encoded, kc, vc, valid)), kc, vc)
      == Marked(Later(plain, ops, m, filters, plainValid))
    decreases ops
  {
    hide Comparable, At, DecodedUpdates, Marked, Covered, OpAvoids, Step, WrappedStep, SameValidity;
    NothingDecoded(kc, vc);
    if ops != [] {
      var plain', coded' := Step(plain, ops[0], plainValid).0, WrappedStep(coded, ops[0], kc, vc, valid).0;
      StepComparable(plain, coded, ops[0], m, filters, encoded, but, kc, vc, valid, plainValid);
      AtAgrees(plain', coded', m, filters, encoded, but, plain'.last, kc, vc);
      assert forall op :: op in ops[1..] ==> op in ops;
      LaterAgrees(plain', coded', ops[1..], m, filters, encoded, but, kc, vc, valid, plainValid);
      var news, later := News(coded, coded', KeyMatches, encoded), RawLater(coded', ops[1..], encoded, kc, vc, valid);
      MarkedAppend(news, later);
      MarkedAppend(News(plain, plain', m, filters), Later(plain', ops[1..], m, filters, plainValid));
      UpdatesAppend(Marked(news), Marked(later), kc, vc);
    }
  }

  /** Options look at nothing that the codecs change. */
  lemma KeptAgrees(raw: Delivery, plain: Delivery, o: WatchOpts, kc: KeyCodec, vc: ValueCodec)
    requires plain == Decoded(raw, kc, vc)
    ensures DecodedUpdates(Marked(Kept(raw, o)), kc, vc) == Marked(Kept(plain, o))
  {
    hide EntryKey;
  }

  lemma {:induction false} ChosenAgree(raw: seq<Delivery>, plain: seq<Delivery>, o: WatchOpts, kc: KeyCodec,
      vc: ValueCodec)
    requires DecodedUpdates(Marked(raw), kc, vc) == Marked(plain)
    ensures DecodedUpdates(Marked(Chosen(raw, o)), kc, vc) == Marked(Chosen(plain, o))
  {
    hide Decoded, Kept;
    assert |Marked(raw)| == |raw| && |Marked(plain)| == |plain|;
    if raw != [] {
      var n := |raw| - 1;
      forall i | 0 <= i <= n ensures plain[i] == Decoded(raw[i], kc, vc) {
        assert Marked(plain)[i] == DecodedUpdate(Marked(raw)[i], kc, vc);
      }
      ChosenAgree(raw[..n], plain[..n], o, kc, vc);
      KeptAgrees(raw[n], plain[n], o, kc, vc);
      MarkedAppend(Chosen(raw[..n], o), Kept(raw[n], o));
      MarkedAppend(Chosen(plain[..n], o), Kept(plain[n], o));
      UpdatesAppend(Marked(Chosen(raw[..n], o)), Marked(Kept(raw[n], o)), kc, vc);
    }
  }

  /** Where the encoded filters are faithful, a filtered watch through the codecs delivers,
      under all options, what the same watch on a plain bucket delivers: the same entries in
      the same order, the marker at the same place, and every later change as it comes. */
  lemma WatchesAgree(plain: Bucket, coded: Bucket, ops: seq<Op>, m: Matching, filters: seq<Text>, encoded: seq<Text>,
      o: WatchOpts, but: set<Text>, kc: KeyCodec, vc: ValueCodec, valid: Text -> bool, plainValid: Text -> bool)
    requires Comparable(plain, coded, m, filters, encoded, but, kc, vc) && SameValidity(valid, plainValid, kc)
    requires forall op :: op in ops ==> Covered(op, kc, vc) && OpAvoids(op, but)
    ensures DecodedUpdates(RawWatch(coded, ops, encoded, o, kc, vc, valid), kc, vc)
      == Watch(plain, ops, m, filters, o, plainValid)
  {
    hide Related, UpTo, Later, RawLater, DecodedUpdates, Marked, Covered, OpAvoids, SameValidity, Chosen;
    LastAgrees(plain, coded, kc, vc);
    NothingDecoded(kc, vc);
    UpToAgrees(plain, coded, m, filters, encoded, but, plain.last, kc, vc);
    LaterAgrees(plain, coded, ops, m, filters, encoded, but, kc, vc, valid, plainValid);
    var initial, later := UpTo(coded, KeyMatches, encoded, coded.last), RawLater(coded, ops, encoded, kc, vc, valid);
    ChosenAgree(initial, UpTo(plain, m, filters, plain.last), o, kc, vc);
    ChosenAgree(later, Later(plain, ops, m, filters, plainValid), o, kc, vc);
    var before := Marked(Chosen(initial, o));
    UpdatesAppend(before + [None], Marked(Chosen(later, o)), kc, vc);
    UpdatesAppend(before, [None], kc, vc);
    assert [] + Marked(Chosen(later, o)) == Marked(Chosen(later, o));
    assert [] + Marked(Chosen(Later(plain, ops, m, filters, plainValid), o))
      == Marked(Chosen(Later(plain, ops, m, filters, plainValid), o));
  }

  lemma {:induction false} PlayKeeps(b: Bucket, ops: seq<Op>, valid: Text -> bool, but: set<Text>)
    requires Orderly(b) && Avoided(b, but) && forall op :: op in ops ==> OpAvoids(op, but)
    ensures Orderly(Play(b, ops, valid).0) && Avoided(Play(b, ops, valid).0, but)
    decreases ops
  {
    hide Orderly, Step, Avoided, OpAvoids;
    if ops != [] {
      StepOrderly(b, ops[0], valid);
      StepAvoids(b, ops[0], valid, but);
      assert forall op :: op in ops[1..] ==> op in ops;
      PlayKeeps(Step(b, ops[0], valid).0, ops[1..], valid, but);
    }
  }

  /** The keys a plain bucket has to refuse to be like the one behind the codec. */
  function Translated(kc: KeyCodec, valid: Text -> bool): Text -> bool {
    k => match kc.encode(k) case Ok(e) => valid(e) case Err(_) => false
  }

  /** The same after any operations on a bucket that was empty. */
  lemma WatchesAgreeLater(before: seq<Op>, ops: seq<Op>, m: Matching, filters: seq<Text>, encoded: seq<Text>,
      o: WatchOpts, but: set<Text>, kc: KeyCodec, vc: ValueCodec, valid: Text -> bool)
    requires forall op :: op in before || op in ops ==> Covered(op, kc, vc) && OpAvoids(op, but)
    requires AllFaithful(kc, m, filters, but) && EncodedFilters(kc, filters, encoded)
    ensures var plainValid := Translated(kc, valid);
      DecodedUpdates(RawWatch(WrappedPlay(EMPTY, before, kc, vc, valid).0, ops, encoded, o, kc, vc, valid), kc, vc)
      == Watch(Play(EMPTY, before, plainValid).0, ops, m, filters, o, plainValid)
  {
    hide Related, Watch, RawWatch, DecodedUpdates, Covered, OpAvoids, AllFaithful, EncodedFilters;
    var plainValid := Translated(kc, valid);
    BehavesLikePlain(before, kc, vc, valid, plainValid);
    PlayKeeps(EMPTY, before, plainValid, but);
    var plain, coded := Play(EMPTY, before, plainValid).0, WrappedPlay(EMPTY, before, kc, vc, valid).0;
    WatchesAgree(plain, coded, ops, m, filters, encoded, o, but, kc, vc, valid, plainValid);
  }

  /** With base64 there is no condition: after any operations, under any other operations,
      with any filters. */
  lemma Base64WatchesAgree(before: seq<Op>, ops: seq<Op>, filters: seq<Text>, encoded: seq<Text>, o: WatchOpts,
      valid: Text -> bool)
    requires |encoded| == |filters| && forall i :: 0 <= i < |filters| ==> encoded[i] == EncodedFilter(filters[i])
    ensures var kc, vc := Base64KeyCodec(), Base64ValueCodec();
      var plainValid := Translated(kc, valid);
      DecodedUpdates(RawWatch(WrappedPlay(EMPTY, before, kc, vc, valid).0, ops, encoded, o, kc, vc, valid), kc, vc)
      == Watch(Play(EMPTY, before, plainValid).0, ops, KeyMatches, filters, o, plainValid)
  {
    hide Watch, RawWatch, DecodedUpdates, Covered, Translated;
    var kc, vc := Base64KeyCodec(), Base64ValueCodec();
    Base64Covers(before);
    Base64Covers(ops);
    forall f, k ensures Faithful(kc, KeyMatches, f, k) { FilterMatchesEncoded(f, k); }
    WatchesAgreeLater(before, ops, KeyMatches, filters, encoded, o, {}, kc, vc, valid);
  }

  /** Operations on paths that come back, with or without the root. */
  predicate PathOp(op: Op, root: bool) { op.Keys? || (KeptPath(op.key) && (root || op.key != [SLASH])) }

  lemma PathsCovered(op: Op, root: bool)
    requires PathOp(op, root)
    ensures Covered(op, ChainCodec(PathThenBase64()), Base64ValueCodec())
    ensures OpAvoids(op, if root then {} else {[SLASH]})
  {
    hide KeptPath, ValueInverts, Inverts;
    if !op.Keys? { PathThenBase64Faithful([], op.key); }
    if op.Put? || op.Create? || op.Update? { Base64Value(op.value); }
  }

  lemma Base64Value(v: Text)
    ensures ValueInverts(Base64ValueCodec(), v)
  {
    RoundTrip(v);
  }

  /** Through the documented chain a watch for paths delivers what a bucket of paths would,
      if the root is not a key or none of the five filters that treat it differently is
      used. */
  lemma PathWatchesAgree(before: seq<Op>, ops: seq<Op>, filters: seq<Text>, encoded: seq<Text>, o: WatchOpts,
      root: bool, valid: Text -> bool)
    requires forall op :: op in before || op in ops ==> PathOp(op, root)
    requires forall i :: 0 <= i < |filters| ==> KeptPath(filters[i]) && (root ==> !RootMismatch(filters[i], [SLASH]))
    requires EncodedFilters(ChainCodec(PathThenBase64()), filters, encoded)
    ensures var kc, vc := ChainCodec(PathThenBase64()), Base64ValueCodec();
      var plainValid := Translated(kc, valid);
      DecodedUpdates(RawWatch(WrappedPlay(EMPTY, before, kc, vc, valid).0, ops, encoded, o, kc, vc, valid), kc, vc)
      == Watch(Play(EMPTY, before, plainValid).0, ops, PathMatches, filters, o, plainValid)
  {
    hide Watch, RawWatch, DecodedUpdates, Covered, OpAvoids, EncodedFilters, Translated, PathOp;
    var kc, vc := ChainCodec(PathThenBase64()), Base64ValueCodec();
    var but := if root then {} else {[SLASH]};
    forall op | op in before || op in ops ensures Covered(op, kc, vc) && OpAvoids(op, but) { PathsCovered(op, root); }
    forall i, k | 0 <= i < |filters| && Inverts(kc, k) && k !in but ensures Faithful(kc, PathMatches, filters[i], k) {
      PathFaithful(filters[i], k);
    }
    WatchesAgreeLater(before, ops, PathMatches, filters, encoded, o, but, kc, vc, valid);
  }

  lemma PathFaithful(f: Text, k: Text)
    requires KeptPath(f) && !RootMismatch(f, k) && Inverts(ChainCodec(PathThenBase64()), k)
    ensures Faithful(ChainCodec(PathThenBase64()), PathMatches, f, k)
  {
    hide KeyMatches, PathMatches, KeptPath, RootMismatch;
    PathThenBase64Faithful(f, k);
  }
}
