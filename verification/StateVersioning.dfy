/**
 * Versioned chain state files: the version header, the three layouts, their migrations, and loading
 * by trial decoding. The fields between the validators and the registered hotkeys are one opaque
 * value with its own lawful codec; strings are byte strings.
 */
module StateVersioning {
  import opened Base
  import opened Bincode

  const CURRENT_STATE_VERSION: u32 := 3
  const MIN_SUPPORTED_VERSION: u32 := 1

  type Hotkey = b: Bytes | |b| == 32 witness seq(32, _ => 0)

  datatype NetworkConfig = NetworkConfig(subnetId: u16, minStake: u64, thresholdBits: u64, blockTimeMs: u64,
                                         maxValidators: u64, evaluationTimeoutSecs: u64)

  datatype ValidatorInfoLegacy = ValidatorInfoLegacy(
    hotkey: Hotkey, stake: u64, isActive: bool, lastSeen: Blob, peerId: Option<Blob>)

  datatype ValidatorInfo = ValidatorInfo(
    hotkey: Hotkey, stake: u64, isActive: bool, lastSeen: Blob, peerId: Option<Blob>, x25519Pubkey: Option<Blob>)

  /** The fields all three layouts share, over the validator record `V` and the opaque fields `M`. */
  datatype Core<V, M> = Core(blockHeight: u64, epoch: u64, config: NetworkConfig, sudoKey: Hotkey,
                             validators: map<Hotkey, V>, middle: M)

  datatype ChainStateV1<M> = ChainStateV1(core: Core<ValidatorInfoLegacy, M>)
  datatype ChainStateV2<M> = ChainStateV2(core: Core<ValidatorInfoLegacy, M>, registeredHotkeys: set<Hotkey>)
  datatype ChainState<M> = ChainState(core: Core<ValidatorInfo, M>, registeredHotkeys: set<Hotkey>)

  datatype LoadError = Malformed | TooOld | UnknownVersion

  // ---------------------------------------------------------------- migrations

  function MigrateInfo(v: ValidatorInfoLegacy): ValidatorInfo {
    ValidatorInfo(v.hotkey, v.stake, v.isActive, v.lastSeen, v.peerId, None)
  }

  function MigrateCore<M>(c: Core<ValidatorInfoLegacy, M>): Core<ValidatorInfo, M> {
    Core(c.blockHeight, c.epoch, c.config, c.sudoKey,
         map h | h in c.validators :: MigrateInfo(c.validators[h]), c.middle)
  }

  function MigrateV1<M>(s: ChainStateV1<M>): ChainState<M> {
    ChainState(MigrateCore(s.core), {})
  }

  function MigrateV2<M>(s: ChainStateV2<M>): ChainState<M> {
    ChainState(MigrateCore(s.core), s.registeredHotkeys)
  }

  // ---------------------------------------------------------------- records

  function EncConfig(c: NetworkConfig): Bytes {
    EncU16(c.subnetId) + (EncU64(c.minStake) + (EncU64(c.thresholdBits) +
    (EncU64(c.blockTimeMs) + (EncU64(c.maxValidators) + EncU64(c.evaluationTimeoutSecs)))))
  }

  function DecU16(b: Bytes): Parsed<u16> {
    if |b| < 2 then Fail else Done(Value16(b[..2]), b[2..])
  }

  function DecConfig(b: Bytes): Parsed<NetworkConfig> {
    var (subnetId, b1) :- DecU16(b);
    var (minStake, b2) :- DecU64(b1);
    var (thresholdBits, b3) :- DecU64(b2);
    var (blockTimeMs, b4) :- DecU64(b3);
    var (maxValidators, b5) :- DecU64(b4);
    var (timeout, b6) :- DecU64(b5);
    Done(NetworkConfig(subnetId, minStake, thresholdBits, blockTimeMs, maxValidators, timeout), b6)
  }

  function EncLegacy(v: ValidatorInfoLegacy): Bytes {
    v.hotkey + (EncU64(v.stake) + (EncBool(v.isActive) + (EncBlob(v.lastSeen) + EncOption(v.peerId))))
  }

  function DecHotkey(b: Bytes): Parsed<Hotkey> {
    if |b| < 32 then Fail else Done(b[..32], b[32..])
  }

  function DecLegacy(b: Bytes): Parsed<ValidatorInfoLegacy> {
    var (hotkey, b1) :- DecHotkey(b);
    var (stake, b2) :- DecU64(b1);
    var (isActive, b3) :- DecBool(b2);
    var (lastSeen, b4) :- DecBlob(b3);
    var (peerId, b5) :- DecOption(b4);
    Done(ValidatorInfoLegacy(hotkey, stake, isActive, lastSeen, peerId), b5)
  }

  /** The current record is the legacy one with one more field at the end. */
  function EncInfo(v: ValidatorInfo): Bytes {
    EncLegacy(ValidatorInfoLegacy(v.hotkey, v.stake, v.isActive, v.lastSeen, v.peerId)) + EncOption(v.x25519Pubkey)
  }

  function DecInfo(b: Bytes): Parsed<ValidatorInfo> {
    var (v, b1) :- DecLegacy(b);
    var (key, b2) :- DecOption(b1);
    Done(ValidatorInfo(v.hotkey, v.stake, v.isActive, v.lastSeen, v.peerId, key), b2)
  }

  const LEGACY: Codec<ValidatorInfoLegacy> := Codec(EncLegacy, DecLegacy)
  const INFO: Codec<ValidatorInfo> := Codec(EncInfo, DecInfo)

  // ---------------------------------------------------------------- maps and sets, in any order

  function EncEntry<V(!new)>(vc: Codec<V>, e: (Hotkey, V)): Bytes {
    e.0 + vc.enc(e.1)
  }

  function DecEntry<V(!new)>(vc: Codec<V>, b: Bytes): Parsed<(Hotkey, V)> {
    var (h, b1) :- DecHotkey(b);
    var (v, b2) :- vc.dec(b1);
    Done((h, v), b2)
  }

  function EntryCodec<V(!new)>(vc: Codec<V>): Codec<(Hotkey, V)> {
    Codec(e => EncEntry(vc, e), b => DecEntry(vc, b))
  }

  const HOTKEY: Codec<Hotkey> := Codec((h: Hotkey) => h, DecHotkey)

  function Entries<V>(m: map<Hotkey, V>, order: seq<Hotkey>): seq<(Hotkey, V)>
    requires forall h :: h in order ==> h in m
  {
    if order == [] then [] else Entries(m, order[..|order| - 1]) + [(order[|order| - 1], m[order[|order| - 1]])]
  }

  function FromEntries<V>(entries: seq<(Hotkey, V)>): map<Hotkey, V> {
    if entries == [] then map[]
    else FromEntries(entries[..|entries| - 1])[entries[|entries| - 1].0 := entries[|entries| - 1].1]
  }

  function SetOf(items: seq<Hotkey>): set<Hotkey> {
    set h | h in items
  }

  // ---------------------------------------------------------------- the three layouts

  function EncCore<V(!new), M(!new)>(vc: Codec<V>, mc: Codec<M>, c: Core<V, M>, order: seq<Hotkey>): Bytes
    requires forall h :: h in order ==> h in c.validators
  {
    EncU64(c.blockHeight) + (EncU64(c.epoch) + EncCoreTail(vc, mc, c, order))
  }

  function EncCoreTail<V(!new), M(!new)>(vc: Codec<V>, mc: Codec<M>, c: Core<V, M>, order: seq<Hotkey>): Bytes
    requires forall h :: h in order ==> h in c.validators
  {
    EncConfig(c.config) + (c.sudoKey + (EncList(EntryCodec(vc), Entries(c.validators, order)) + mc.enc(c.middle)))
  }

  function DecCore<V(!new), M(!new)>(vc: Codec<V>, mc: Codec<M>, b: Bytes): Parsed<Core<V, M>> {
    var (blockHeight, b1) :- DecU64(b);
    var (epoch, b2) :- DecU64(b1);
    var (config, b3) :- DecConfig(b2);
    var (sudoKey, b4) :- DecHotkey(b3);
    var (entries, b5) :- DecList(EntryCodec(vc), b4);
    var (middle, b6) :- mc.dec(b5);
    Done(Core(blockHeight, epoch, config, sudoKey, FromEntries(entries), middle), b6)
  }

  function EncodeV1<M(!new)>(mc: Codec<M>, s: ChainStateV1<M>, order: seq<Hotkey>): Bytes
    requires forall h :: h in order ==> h in s.core.validators
  {
    EncCore(LEGACY, mc, s.core, order)
  }

  function EncodeV2<M(!new)>(mc: Codec<M>, s: ChainStateV2<M>, order: seq<Hotkey>, registered: seq<Hotkey>): Bytes
    requires forall h :: h in order ==> h in s.core.validators
  {
    EncCore(LEGACY, mc, s.core, order) + EncList(HOTKEY, registered)
  }

  function Encode<M(!new)>(mc: Codec<M>, s: ChainState<M>, order: seq<Hotkey>, registered: seq<Hotkey>): Bytes
    requires forall h :: h in order ==> h in s.core.validators
  {
    EncCore(INFO, mc, s.core, order) + EncList(HOTKEY, registered)
  }

  function DecodeV1<M(!new)>(mc: Codec<M>, b: Bytes): Option<ChainStateV1<M>> {
    match DecCore(LEGACY, mc, b) case Done(core, _) => Some(ChainStateV1(core)) case Fail => None
  }

  function DecodeV2<M(!new)>(mc: Codec<M>, b: Bytes): Option<ChainStateV2<M>> {
    match DecCore(LEGACY, mc, b)
    case Fail => None
    case Done(core, rest) =>
      match DecList(HOTKEY, rest) case Done(hs, _) => Some(ChainStateV2(core, SetOf(hs))) case Fail => None
  }

  function Decode<M(!new)>(mc: Codec<M>, b: Bytes): Option<ChainState<M>> {
    match DecCore(INFO, mc, b)
    case Fail => None
    case Done(core, rest) =>
      match DecList(HOTKEY, rest) case Done(hs, _) => Some(ChainState(core, SetOf(hs))) case Fail => None
  }

  // ---------------------------------------------------------------- the version header and smart loading

  datatype VersionedState = VersionedState(version: u32, data: Blob)

  function EncVersioned(v: VersionedState): Bytes {
    EncU32(v.version) + EncBlob(v.data)
  }

  function DecVersioned(b: Bytes): Option<VersionedState> {
    match DecU32(b)
    case Fail => None
    case Done(version, rest) =>
      match DecBlob(rest) case Done(data, _) => Some(VersionedState(version, data)) case Fail => None
  }

  function MigrateState<M(!new)>(mc: Codec<M>, version: u32, data: Bytes): Result<ChainState<M>, LoadError> {
    if version == 1 then
      match DecodeV1(mc, data) case Some(s) => Ok(MigrateV1(s)) case None => Err(Malformed)
    else if version == 2 then
      match DecodeV2(mc, data) case Some(s) => Ok(MigrateV2(s)) case None => Err(Malformed)
    else Err(UnknownVersion)
  }

  function IntoState<M(!new)>(mc: Codec<M>, v: VersionedState): Result<ChainState<M>, LoadError> {
    if v.version == CURRENT_STATE_VERSION then
      match Decode(mc, v.data) case Some(s) => Ok(s) case None => Err(Malformed)
    else if v.version >= MIN_SUPPORTED_VERSION then MigrateState(mc, v.version, v.data)
    else Err(TooOld)
  }

  /** Versioned first, then raw current, then raw V2, then raw V1. */
  function SmartLoad<M(!new)>(mc: Codec<M>, b: Bytes): Result<ChainState<M>, LoadError> {
    match DecVersioned(b)
    case Some(v) => IntoState(mc, v)
    case None =>
      match Decode(mc, b)
      case Some(s) => Ok(s)
      case None =>
        match DecodeV2(mc, b)
        case Some(s) => Ok(MigrateV2(s))
        case None =>
          match DecodeV1(mc, b) case Some(s) => Ok(MigrateV1(s)) case None => Err(Malformed)
  }

  // ---------------------------------------------------------------- round trips of the records

  lemma ConfigRoundTrip(c: NetworkConfig, rest: Bytes)
    ensures DecConfig(EncConfig(c) + rest) == Done(c, rest)
  {
    var t5 := EncU64(c.evaluationTimeoutSecs);
    var t4 := EncU64(c.maxValidators) + t5;
    var t3 := EncU64(c.blockTimeMs) + t4;
    var t2 := EncU64(c.thresholdBits) + t3;
    var t1 := EncU64(c.minStake) + t2;
    Assoc(EncU16(c.subnetId), t1, rest);
    Cut(EncU16(c.subnetId), t1 + rest);
    Value16Inverts(c.subnetId);
    Assoc(EncU64(c.minStake), t2, rest);
    U64RoundTrip(c.minStake, t2 + rest);
    Assoc(EncU64(c.thresholdBits), t3, rest);
    U64RoundTrip(c.thresholdBits, t3 + rest);
    Assoc(EncU64(c.blockTimeMs), t4, rest);
    U64RoundTrip(c.blockTimeMs, t4 + rest);
    Assoc(EncU64(c.maxValidators), t5, rest);
    U64RoundTrip(c.maxValidators, t5 + rest);
    U64RoundTrip(c.evaluationTimeoutSecs, rest);
  }

  lemma LegacyRoundTrip(v: ValidatorInfoLegacy, rest: Bytes)
    ensures DecLegacy(EncLegacy(v) + rest) == Done(v, rest)
  {
    var t4 := EncOption(v.peerId);
    var t3 := EncBlob(v.lastSeen) + t4;
    var t2 := EncBool(v.isActive) + t3;
    var t1 := EncU64(v.stake) + t2;
    Assoc(v.hotkey, t1, rest);
    Cut(v.hotkey, t1 + rest);
    Assoc(EncU64(v.stake), t2, rest);
    U64RoundTrip(v.stake, t2 + rest);
    Assoc(EncBool(v.isActive), t3, rest);
    BoolRoundTrip(v.isActive, t3 + rest);
    Assoc(EncBlob(v.lastSeen), t4, rest);
    BlobRoundTrip(v.lastSeen, t4 + rest);
    OptionRoundTrip(v.peerId, rest);
  }

  lemma InfoRoundTrip(v: ValidatorInfo, rest: Bytes)
    ensures DecInfo(EncInfo(v) + rest) == Done(v, rest)
  {
    var legacy := ValidatorInfoLegacy(v.hotkey, v.stake, v.isActive, v.lastSeen, v.peerId);
    Assoc(EncLegacy(legacy), EncOption(v.x25519Pubkey), rest);
    LegacyRoundTrip(legacy, EncOption(v.x25519Pubkey) + rest);
    OptionRoundTrip(v.x25519Pubkey, rest);
  }

  lemma CodecsLawful()
    ensures Lawful(LEGACY) && Lawful(INFO) && Lawful(HOTKEY)
  {
    forall v: ValidatorInfoLegacy, rest: Bytes ensures LEGACY.dec(LEGACY.enc(v) + rest) == Done(v, rest) {
      LegacyRoundTrip(v, rest);
    }
    forall v: ValidatorInfo, rest: Bytes ensures INFO.dec(INFO.enc(v) + rest) == Done(v, rest) {
      InfoRoundTrip(v, rest);
    }
    forall h: Hotkey, rest: Bytes ensures HOTKEY.dec(HOTKEY.enc(h) + rest) == Done(h, rest) {
      Cut(h, rest);
    }
  }

  lemma EntryLawful<V(!new)>(vc: Codec<V>)
    requires Lawful(vc)
    ensures Lawful(EntryCodec(vc))
  {
    forall e: (Hotkey, V), rest: Bytes ensures DecEntry(vc, EncEntry(vc, e) + rest) == Done(e, rest) {
      Assoc(e.0, vc.enc(e.1), rest);
      Cut(e.0, vc.enc(e.1) + rest);
    }
  }

  lemma {:induction false} EntriesAt<V>(m: map<Hotkey, V>, order: seq<Hotkey>, h: Hotkey)
    requires forall x :: x in order ==> x in m
    ensures var m' := FromEntries(Entries(m, order)); (h in m' <==> h in order) && (h in m' ==> m'[h] == m[h])
    ensures |Entries(m, order)| == |order|
  {
    if order == [] {
    } else {
      var init := order[..|order| - 1];
      EntriesAt(m, init, h);
      var es := Entries(m, order);
      assert es[..|es| - 1] == Entries(m, init);
      assert h in order <==> h in init || h == order[|order| - 1];
    }
  }

  lemma EntriesRoundTrip<V>(m: map<Hotkey, V>, order: seq<Hotkey>)
    requires Enumerates(order, m.Keys)
    ensures FromEntries(Entries(m, order)) == m && |Entries(m, order)| == |order|
  {
    var m' := FromEntries(Entries(m, order));
    EntriesAt(m, order, seq(32, _ => 0));
    forall h ensures (h in m' <==> h in m) && (h in m' ==> m'[h] == m[h]) {
      EntriesAt(m, order, h);
    }
  }

  /** `order` is one serialisation order of the map, and not too long for its prefix. */
  ghost predicate Serialises<T(!new)>(order: seq<T>, s: set<T>) {
    Enumerates(order, s) && |order| < U64_SIZE
  }

  lemma CoreTailRoundTrip<V(!new), M(!new)>(vc: Codec<V>, mc: Codec<M>, c: Core<V, M>, order: seq<Hotkey>, rest: Bytes)
    requires Lawful(vc) && Lawful(mc) && Serialises(order, c.validators.Keys)
    ensures var b := EncCoreTail(vc, mc, c, order) + rest;
            var list := EncList(EntryCodec(vc), Entries(c.validators, order));
            && DecConfig(b) == Done(c.config, c.sudoKey + (list + (mc.enc(c.middle) + rest)))
            && DecList(EntryCodec(vc), list + (mc.enc(c.middle) + rest)) == Done(Entries(c.validators, order), mc.enc(c.middle) + rest)
  {
    var entries := Entries(c.validators, order);
    var list := EncList(EntryCodec(vc), entries);
    var t2 := list + mc.enc(c.middle);
    var t1 := c.sudoKey + t2;
    Assoc(EncConfig(c.config), t1, rest);
    Assoc(c.sudoKey, t2, rest);
    Assoc(list, mc.enc(c.middle), rest);
    ConfigRoundTrip(c.config, t1 + rest);
    EntryLawful(vc);
    EntriesRoundTrip(c.validators, order);
    ListRoundTrip(EntryCodec(vc), entries, mc.enc(c.middle) + rest);
  }

  lemma CoreRoundTrip<V(!new), M(!new)>(vc: Codec<V>, mc: Codec<M>, c: Core<V, M>, order: seq<Hotkey>, rest: Bytes)
    requires Lawful(vc) && Lawful(mc) && Serialises(order, c.validators.Keys)
    ensures DecCore(vc, mc, EncCore(vc, mc, c, order) + rest) == Done(c, rest)
  {
    var tail := EncCoreTail(vc, mc, c, order);
    Assoc(EncU64(c.blockHeight), EncU64(c.epoch) + tail, rest);
    Assoc(EncU64(c.epoch), tail, rest);
    U64RoundTrip(c.blockHeight, EncU64(c.epoch) + (tail + rest));
    U64RoundTrip(c.epoch, tail + rest);
    CoreTailRoundTrip(vc, mc, c, order, rest);
    Cut(c.sudoKey, EncList(EntryCodec(vc), Entries(c.validators, order)) + (mc.enc(c.middle) + rest));
    EntriesRoundTrip(c.validators, order);
  }

  lemma HotkeysRoundTrip(hs: set<Hotkey>, order: seq<Hotkey>, rest: Bytes)
    requires Serialises(order, hs)
    ensures DecList(HOTKEY, EncList(HOTKEY, order) + rest) == Done(order, rest) && SetOf(order) == hs
  {
    CodecsLawful();
    ListRoundTrip(HOTKEY, order, rest);
  }

  lemma DecodeInvertsEncode<M(!new)>(mc: Codec<M>, s: ChainState<M>, order: seq<Hotkey>, registered: seq<Hotkey>)
    requires Lawful(mc) && Serialises(order, s.core.validators.Keys) && Serialises(registered, s.registeredHotkeys)
    ensures Decode(mc, Encode(mc, s, order, registered)) == Some(s)
  {
    CodecsLawful();
    var list := EncList(HOTKEY, registered);
    CoreRoundTrip(INFO, mc, s.core, order, list);
    HotkeysRoundTrip(s.registeredHotkeys, registered, []);
    assert list + [] == list;
  }

  lemma DecodeInvertsEncodeV2<M(!new)>(mc: Codec<M>, s: ChainStateV2<M>, order: seq<Hotkey>, registered: seq<Hotkey>)
    requires Lawful(mc) && Serialises(order, s.core.validators.Keys) && Serialises(registered, s.registeredHotkeys)
    ensures DecodeV2(mc, EncodeV2(mc, s, order, registered)) == Some(s)
  {
    CodecsLawful();
    var list := EncList(HOTKEY, registered);
    CoreRoundTrip(LEGACY, mc, s.core, order, list);
    HotkeysRoundTrip(s.registeredHotkeys, registered, []);
    assert list + [] == list;
  }

  lemma DecodeInvertsEncodeV1<M(!new)>(mc: Codec<M>, s: ChainStateV1<M>, order: seq<Hotkey>)
    requires Lawful(mc) && Serialises(order, s.core.validators.Keys)
    ensures DecodeV1(mc, EncodeV1(mc, s, order)) == Some(s)
  {
    CodecsLawful();
    CoreRoundTrip(LEGACY, mc, s.core, order, []);
    assert EncodeV1(mc, s, order) + [] == EncodeV1(mc, s, order);
  }

  // ---------------------------------------------------------------- loading what was saved with a version

  lemma VersionedRoundTrip(v: VersionedState)
    ensures DecVersioned(EncVersioned(v)) == Some(v)
  {
    U32RoundTrip(v.version, EncBlob(v.data));
    BlobRoundTrip(v.data, []);
    assert EncBlob(v.data) + [] == EncBlob(v.data);
  }

  function SerializeVersioned<M(!new)>(mc: Codec<M>, s: ChainState<M>, order: seq<Hotkey>,
        registered: seq<Hotkey>): Bytes
    requires forall h :: h in order ==> h in s.core.validators
    requires |Encode(mc, s, order, registered)| < U64_SIZE
  {
    EncVersioned(VersionedState(CURRENT_STATE_VERSION, Encode(mc, s, order, registered)))
  }

  /** A saved state loads as itself, whatever order its maps were written in. */
  lemma SaveThenLoad<M(!new)>(mc: Codec<M>, s: ChainState<M>, order: seq<Hotkey>, registered: seq<Hotkey>)
    requires Lawful(mc) && Serialises(order, s.core.validators.Keys) && Serialises(registered, s.registeredHotkeys)
    requires |Encode(mc, s, order, registered)| < U64_SIZE
    ensures SmartLoad(mc, SerializeVersioned(mc, s, order, registered)) == Ok(s)
  {
    VersionedRoundTrip(VersionedState(CURRENT_STATE_VERSION, Encode(mc, s, order, registered)));
    DecodeInvertsEncode(mc, s, order, registered);
  }

  /** A version 2 file loads as its migration. */
  lemma LoadVersion2<M(!new)>(mc: Codec<M>, s: ChainStateV2<M>, order: seq<Hotkey>, registered: seq<Hotkey>)
    requires Lawful(mc) && Serialises(order, s.core.validators.Keys) && Serialises(registered, s.registeredHotkeys)
    requires |EncodeV2(mc, s, order, registered)| < U64_SIZE
    ensures SmartLoad(mc, EncVersioned(VersionedState(2, EncodeV2(mc, s, order, registered)))) == Ok(MigrateV2(s))
    ensures MigrateV2(s).registeredHotkeys == s.registeredHotkeys
  {
    VersionedRoundTrip(VersionedState(2, EncodeV2(mc, s, order, registered)));
    DecodeInvertsEncodeV2(mc, s, order, registered);
  }

  /** A version 1 file loads as its migration. */
  lemma LoadVersion1<M(!new)>(mc: Codec<M>, s: ChainStateV1<M>, order: seq<Hotkey>)
    requires Lawful(mc) && Serialises(order, s.core.validators.Keys)
    requires |EncodeV1(mc, s, order)| < U64_SIZE
    ensures SmartLoad(mc, EncVersioned(VersionedState(1, EncodeV1(mc, s, order)))) == Ok(MigrateV1(s))
    ensures MigrateV1(s).registeredHotkeys == {}
  {
    VersionedRoundTrip(VersionedState(1, EncodeV1(mc, s, order)));
    DecodeInvertsEncodeV1(mc, s, order);
  }

  /** Any other version is refused. */
  lemma OtherVersionsRefused<M(!new)>(mc: Codec<M>, v: VersionedState)
    requires v.version < 1 || v.version > 3
    ensures SmartLoad(mc, EncVersioned(v)) == Err(if v.version == 0 then TooOld else UnknownVersion)
  {
    VersionedRoundTrip(v);
  }

  // ---------------------------------------------------------------- what a migration preserves

  /** What consensus reads of a validator: stake and activity. */
  ghost function Votes(m: map<Hotkey, ValidatorInfo>): map<Hotkey, (u64, bool)> {
    map h | h in m :: (m[h].stake, m[h].isActive)
  }

  ghost function LegacyVotes(m: map<Hotkey, ValidatorInfoLegacy>): map<Hotkey, (u64, bool)> {
    map h | h in m :: (m[h].stake, m[h].isActive)
  }

  /** `total_stake`: the stake of the active validators, in any iteration order. */
  ghost function TotalStake(votes: map<Hotkey, (u64, bool)>, order: seq<Hotkey>): nat
    requires forall h :: h in order ==> h in votes
  {
    if order == [] then 0
    else
      TotalStake(votes, order[..|order| - 1]) + Counted(votes[order[|order| - 1]])
  }

  /** `consensus_threshold` counts these and multiplies by the configured share. */
  ghost function ActiveCount(votes: map<Hotkey, (u64, bool)>): nat {
    |set h | h in votes && votes[h].1|
  }

  function Counted(vote: (u64, bool)): nat {
    if vote.1 then vote.0 else 0
  }

  lemma {:induction false} TotalStakeConcat(votes: map<Hotkey, (u64, bool)>, a: seq<Hotkey>, b: seq<Hotkey>)
    requires forall h :: h in a + b ==> h in votes
    requires forall h :: h in a ==> h in votes
    requires forall h :: h in b ==> h in votes
    ensures TotalStake(votes, a + b) == TotalStake(votes, a) + TotalStake(votes, b)
  {
    if b == [] {
      assert a + b == a;
    } else {
      var init := b[..|b| - 1];
      assert (a + b)[..|a + b| - 1] == a + init;
      TotalStakeConcat(votes, a, init);
    }
  }

  /** Taking one hotkey out of the order takes its stake out of the total if it is active, and nothing otherwise. */
  lemma TotalStakeWithout(votes: map<Hotkey, (u64, bool)>, order: seq<Hotkey>, j: nat)
    requires j < |order| && forall h :: h in order ==> h in votes
    ensures forall h :: h in order[..j] + order[j + 1..] ==> h in votes
    ensures TotalStake(votes, order) == TotalStake(votes, order[..j] + order[j + 1..]) +
                                       if votes[order[j]].1 then votes[order[j]].0 else 0
  {
    var before, at, after := order[..j], [order[j]], order[j + 1..];
    assert order == (before + at) + after;
    TotalStakeConcat(votes, before + at, after);
    TotalStakeConcat(votes, before, at);
    TotalStakeConcat(votes, before, after);
    assert at[..0] == [];
  }

  lemma EnumeratesWithout(order: seq<Hotkey>, s: set<Hotkey>, j: nat)
    requires Enumerates(order, s) && j < |order|
    ensures Enumerates(order[..j] + order[j + 1..], s - {order[j]})
  {
    var rest := order[..j] + order[j + 1..];
    forall h ensures h in rest <==> h in s - {order[j]} {
      if h in s - {order[j]} {
        assert h in order;
        var i :| 0 <= i < |order| && order[i] == h;
        assert rest[if i < j then i else i - 1] == h;
      }
      if h in rest {
        var i :| 0 <= i < |rest| && rest[i] == h;
        assert h == order[if i < j then i else i + 1];
      }
    }
  }

  /** The total does not depend on the order a hash map is walked in. */
  lemma {:induction false} TotalStakeAnyOrder(votes: map<Hotkey, (u64, bool)>, s: set<Hotkey>, a: seq<Hotkey>,
        b: seq<Hotkey>)
    requires s <= votes.Keys && Enumerates(a, s) && Enumerates(b, s)
    ensures TotalStake(votes, a) == TotalStake(votes, b)
    decreases |a|
  {
    EnumerationSize(a, s);
    EnumerationSize(b, s);
    if a == [] {
    } else {
      var x, last := a[|a| - 1], |a| - 1;
      assert x in s && x in b;
      var j :| 0 <= j < |b| && b[j] == x;
      EnumeratesWithout(a, s, last);
      EnumeratesWithout(b, s, j);
      assert a[..last] + a[last + 1..] == a[..last];
      TotalStakeAnyOrder(votes, s - {x}, a[..last], b[..j] + b[j + 1..]);
      TotalStakeWithout(votes, b, j);
    }
  }

  /**
   * Migrating keeps every field of every validator and of the state around them; so the total stake,
   * in whatever orders the two maps are walked, and the number of active validators, and with them
   * the consensus threshold, are what they were.
   */
  lemma MigrationPreserves<M>(c: Core<ValidatorInfoLegacy, M>, order: seq<Hotkey>, order': seq<Hotkey>)
    requires Enumerates(order, c.validators.Keys) && Enumerates(order', c.validators.Keys)
    ensures var c' := MigrateCore(c);
            && c'.validators.Keys == c.validators.Keys
            && (forall h :: h in c.validators ==> KeepsRecord(c.validators[h], c'.validators[h]))
            && TotalStake(Votes(c'.validators), order') == TotalStake(LegacyVotes(c.validators), order)
            && ActiveCount(Votes(c'.validators)) == ActiveCount(LegacyVotes(c.validators))
            && (c'.blockHeight, c'.epoch, c'.config, c'.sudoKey) == (c.blockHeight, c.epoch, c.config, c.sudoKey)
            && c'.middle == c.middle
  {
    assert Votes(MigrateCore(c).validators) == LegacyVotes(c.validators);
    TotalStakeAnyOrder(LegacyVotes(c.validators), c.validators.Keys, order, order');
  }

  predicate KeepsRecord(v: ValidatorInfoLegacy, v': ValidatorInfo) {
    && (v'.hotkey, v'.stake, v'.isActive, v'.lastSeen, v'.peerId) == (v.hotkey, v.stake, v.isActive, v.lastSeen, v.peerId)
    && v'.x25519Pubkey == None
  }

  // ---------------------------------------------------------------- loading what was saved without a version

  /** The length a version header would declare if the raw bytes began with one. */
  function DeclaredLength(blockHeight: u64, epoch: u64): nat {
    blockHeight / U32_SIZE + U32_SIZE * (epoch % U32_SIZE)
  }

  /**
   * The first bytes of a raw state, read as a header: the high half of the height and the low half of the
   * epoch are the length.
   */
  lemma RawHeader(blockHeight: u64, epoch: u64, tail: Bytes)
    ensures var b := EncU64(blockHeight) + (EncU64(epoch) + tail);
            var body := EncU32(epoch / U32_SIZE) + tail;
            var n := DeclaredLength(blockHeight, epoch);
            DecVersioned(b) == if n <= |body| then Some(VersionedState(blockHeight % U32_SIZE, body[..n])) else None
  {
    var lo, hi := EncU32(blockHeight % U32_SIZE), EncU32(blockHeight / U32_SIZE);
    var elo, ehi := EncU32(epoch % U32_SIZE), EncU32(epoch / U32_SIZE);
    var body := ehi + tail;
    Assoc(lo, hi, (elo + ehi) + tail);
    Assoc(elo, ehi, tail);
    U32RoundTrip(blockHeight % U32_SIZE, hi + (elo + body));
    Assoc(hi, elo, body);
    Cut(hi + elo, body);
    Cut(hi, elo);
    Value32Inverts(blockHeight / U32_SIZE);
    Value32Inverts(epoch % U32_SIZE);
    assert Value64(hi + elo) == DeclaredLength(blockHeight, epoch);
  }

  lemma EncodeStarts<M(!new)>(mc: Codec<M>, s: ChainState<M>, order: seq<Hotkey>,
        registered: seq<Hotkey>) returns (tail: Bytes)
    requires forall h :: h in order ==> h in s.core.validators
    ensures Encode(mc, s, order, registered) == EncU64(s.core.blockHeight) + (EncU64(s.core.epoch) + tail)
  {
    var coreTail := EncCoreTail(INFO, mc, s.core, order);
    var list := EncList(HOTKEY, registered);
    tail := coreTail + list;
    Assoc(EncU64(s.core.blockHeight), EncU64(s.core.epoch) + coreTail, list);
    Assoc(EncU64(s.core.epoch), coreTail, list);
  }

  lemma NothingDecodes<M(!new)>(mc: Codec<M>, version: u32)
    ensures IntoState(mc, VersionedState(version, [])).Err?
  {
  }

  lemma LengthTooLarge(blockHeight: u64, epoch: u64)
    requires epoch % U32_SIZE != 0
    ensures DeclaredLength(blockHeight, epoch) >= U32_SIZE
  {
  }

  /**
   * Raw current-format bytes shorter than 4 GiB whose epoch is not 0 modulo 2^32 are never taken for
   * a versioned state, and load as the state they encode.
   */
  lemma RawStateLoads<M(!new)>(mc: Codec<M>, s: ChainState<M>, order: seq<Hotkey>, registered: seq<Hotkey>)
    requires Lawful(mc) && Serialises(order, s.core.validators.Keys) && Serialises(registered, s.registeredHotkeys)
    requires |Encode(mc, s, order, registered)| < U32_SIZE && s.core.epoch % U32_SIZE != 0
    ensures DecVersioned(Encode(mc, s, order, registered)).None?
    ensures SmartLoad(mc, Encode(mc, s, order, registered)) == Ok(s)
  {
    var tail := EncodeStarts(mc, s, order, registered);
    RawHeader(s.core.blockHeight, s.core.epoch, tail);
    LengthTooLarge(s.core.blockHeight, s.core.epoch);
    DecodeInvertsEncode(mc, s, order, registered);
  }

  /** The version and data a raw state shows to a reader of headers. */
  function HeaderData(blockHeight: u64, epoch: u64, body: Bytes): (v: VersionedState)
    requires DeclaredLength(blockHeight, epoch) <= |body|
  {
    VersionedState(blockHeight % U32_SIZE, body[..DeclaredLength(blockHeight, epoch)])
  }

  /**
   * What loading raw current-format bytes gives, for every height, epoch and length: if the declared length
   * does not exceed what follows the header, the bytes are taken for a versioned state and nothing else is
   * tried; otherwise they load as the state they encode.
   */
  lemma RawStateOutcome<M(!new)>(mc: Codec<M>, s: ChainState<M>, order: seq<Hotkey>,
        registered: seq<Hotkey>) returns (body: Bytes)
    requires Lawful(mc) && Serialises(order, s.core.validators.Keys) && Serialises(registered, s.registeredHotkeys)
    ensures |body| + 12 == |Encode(mc, s, order, registered)|
    ensures SmartLoad(mc, Encode(mc, s, order, registered)) ==
            if DeclaredLength(s.core.blockHeight, s.core.epoch) <= |body|
            then IntoState(mc, HeaderData(s.core.blockHeight, s.core.epoch, body)) else Ok(s)
  {
    var tail := EncodeStarts(mc, s, order, registered);
    RawHeader(s.core.blockHeight, s.core.epoch, tail);
    body := EncU32(s.core.epoch / U32_SIZE) + tail;
    DecodeInvertsEncode(mc, s, order, registered);
  }

  lemma UnknownHeaderRefused<M(!new)>(mc: Codec<M>, v: VersionedState)
    requires v.version < 1 || v.version > 3 || v.data == []
    ensures IntoState(mc, v).Err?
  {
    if v.data == [] {
      NothingDecodes(mc, v.version);
    }
  }

  /**
   * So, unless the low half of the height happens to be a supported version with data behind it, raw bytes
   * load as their state if and only if the declared length exceeds what follows the header, and are refused
   * otherwise. Below height 2^32 and 4 GiB this is: if and only if the epoch is not 0 modulo 2^32.
   */
  lemma RawStateLoadsExactly<M(!new)>(mc: Codec<M>, s: ChainState<M>, order: seq<Hotkey>, registered: seq<Hotkey>)
    requires Lawful(mc) && Serialises(order, s.core.validators.Keys) && Serialises(registered, s.registeredHotkeys)
    ensures var n, size := DeclaredLength(s.core.blockHeight, s.core.epoch), |Encode(mc, s, order, registered)|;
            var r := SmartLoad(mc, Encode(mc, s, order, registered));
            && (n + 12 > size ==> r == Ok(s))
            && (n + 12 <= size && (n == 0 || !(1 <= s.core.blockHeight % U32_SIZE <= 3)) ==> r.Err?)
            && (s.core.blockHeight < U32_SIZE && size < U32_SIZE ==> (r == Ok(s) <==> s.core.epoch % U32_SIZE != 0))
  {
    var n := DeclaredLength(s.core.blockHeight, s.core.epoch);
    var body := RawStateOutcome(mc, s, order, registered);
    if n <= |body| {
      var v := HeaderData(s.core.blockHeight, s.core.epoch, body);
      if n == 0 || !(1 <= v.version <= 3) {
        UnknownHeaderRefused(mc, v);
      }
    }
    if s.core.epoch % U32_SIZE != 0 {
      LengthTooLarge(s.core.blockHeight, s.core.epoch);
    } else {
      LengthBelow(s.core.blockHeight, s.core.epoch);
    }
  }

  lemma LengthBelow(blockHeight: u64, epoch: u64)
    requires epoch % U32_SIZE == 0
    ensures DeclaredLength(blockHeight, epoch) == blockHeight / U32_SIZE
    ensures blockHeight < U32_SIZE ==> DeclaredLength(blockHeight, epoch) == 0
  {
  }

  // ---------------------------------------------------------------- older files without a version

  /** Without validators the two layouts of the common fields are the same bytes. */
  lemma NoValidatorsSameBytes<M(!new)>(mc: Codec<M>, c: Core<ValidatorInfoLegacy, M>)
    requires c.validators == map[]
    ensures EncCore(LEGACY, mc, c, []) == EncCore(INFO, mc, MigrateCore(c), [])
  {
    assert MigrateCore(c).validators == map[];
  }

  /**
   * Raw version 2 bytes without validators are the current bytes of their migration, and load as it (epoch
   * not 0 modulo 2^32, below 4 GiB).
   */
  lemma RawVersion2Loads<M(!new)>(mc: Codec<M>, s: ChainStateV2<M>, registered: seq<Hotkey>)
    requires Lawful(mc) && s.core.validators == map[] && Serialises(registered, s.registeredHotkeys)
    requires |EncodeV2(mc, s, [], registered)| < U32_SIZE && s.core.epoch % U32_SIZE != 0
    ensures EncodeV2(mc, s, [], registered) == Encode(mc, MigrateV2(s), [], registered)
    ensures SmartLoad(mc, EncodeV2(mc, s, [], registered)) == Ok(MigrateV2(s))
  {
    NoValidatorsSameBytes(mc, s.core);
    assert MigrateV2(s).core.validators == map[];
    RawStateLoads(mc, MigrateV2(s), [], registered);
  }

  /**
   * Raw version 1 bytes without validators end where the two later layouts expect another list, so they
   * fall through to the last attempt and load as their migration (same bounds).
   */
  lemma RawVersion1Loads<M(!new)>(mc: Codec<M>, s: ChainStateV1<M>)
    requires Lawful(mc) && s.core.validators == map[]
    requires |EncodeV1(mc, s, [])| < U32_SIZE && s.core.epoch % U32_SIZE != 0
    ensures Decode(mc, EncodeV1(mc, s, [])).None? && DecodeV2(mc, EncodeV1(mc, s, [])).None?
    ensures SmartLoad(mc, EncodeV1(mc, s, [])) == Ok(MigrateV1(s))
  {
    var b := EncodeV1(mc, s, []);
    EmptyRight(b);
    CodecsLawful();
    NoValidatorsSameBytes(mc, s.core);
    assert MigrateCore(s.core).validators == map[];
    CoreRoundTrip(LEGACY, mc, s.core, [], []);
    CoreRoundTrip(INFO, mc, MigrateCore(s.core), [], []);
    assert DecList(HOTKEY, []) == Fail;
    LengthTooLarge(s.core.blockHeight, s.core.epoch);
    RawHeader(s.core.blockHeight, s.core.epoch, EncCoreTail(LEGACY, mc, s.core, []));
  }
}
