/** Chain logs and what handling one of them writes.

A log is dispatched on its first topic. Token events move the ledger, a few others update their
own records, and all but the token events leave one generic event. Handling ends with the cursor.
*/
module Logs {
  import opened Numerals
  import opened Keys
  import opened Rows
  import opened Ledger
  import opened Plans
  import opened Abi

  /** The first topic; `NoTopics` for an anonymous log, `Unknown` for any other signature. */
  datatype Signature =
    | NoTopics | Unknown
    | Minted | Burned | ForcedTransfer | TransferSingle
    | AssetRegistered | AssetConfigUpdated | ComplianceModuleAdded | ComplianceModuleRemoved | URI
    | IdentityBound | IdentityUnbound
    | WalletFrozen | AssetFrozen | PartialFreeze | LockupSet
    | RoleGranted | RoleRevoked
    | EmergencyPause | ProtocolUnpaused | AssetPaused | AssetUnpaused
    | WalletRecovered
    | SnapshotCreated | DividendCreated | DividendClaimed
    | GroupCreated | UnitMinted
    | GlobalPluginRegistered | GlobalPluginRemoved | GlobalPluginStatusChanged
    | PluginModuleAdded | PluginModuleRemoved | PluginModulesSet
    | RewardAssetAdded | RewardAssetRemoved | YieldDeposited | YieldClaimed
    | CountryRestricted | CountryUnrestricted | MaxBalanceSet | MaxHoldersSet

  /** `args` are the topics after the first, as numbers. */
  datatype Log = Log(sig: Signature, args: seq<nat>, data: seq<Byte>, tx: nat, block: nat, index: nat) {
    function Stamp(): Stamp { Plans.Stamp(tx, block, index) }
  }

  const ADDRESSES := Pow16(40)
  const TWO160: nat := 0x1_00000_00000_00000_00000_00000_00000_00000_00000

  function TokenText(n: nat): Token { Decimal(n) }

  /** The low 20 bytes of a topic, as an address. */
  function AddrText(n: nat): Addr { "0x" + HexDigits(n % ADDRESSES, 40) }

  /** The text of a token id is its number in decimal. */
  lemma TokenTextNumber(n: nat)
    ensures Number(TokenText(n)) == n
  {
    PaddedRoundTrip(n, 1);
  }

  lemma AddressSpace()
    ensures ADDRESSES == TWO160
  {
    assert Pow16(5) == 0x1_00000;
    Pow16Sum(5, 5);
    Pow16Sum(10, 10);
    Pow16Sum(20, 20);
  }

  /** The text of an address is `0x` and the number modulo 2^160 in hexadecimal. */
  lemma AddrTextNumber(n: nat)
    ensures AddrText(n)[..2] == "0x" && HexNumber(AddrText(n)[2..]) == n % TWO160
  {
    AddressSpace();
    assert AddrText(n)[2..] == HexDigits(n % ADDRESSES, 40);
    HexRoundTrip(n % ADDRESSES, 40);
  }

  lemma AddrTextInjective(m: nat, n: nat)
    requires AddrText(m) == AddrText(n)
    ensures m % ADDRESSES == n % ADDRESSES
  {
    assert AddrText(m)[2..] == HexDigits(m % ADDRESSES, 40);
    assert AddrText(n)[2..] == HexDigits(n % ADDRESSES, 40);
    HexInjective(m % ADDRESSES, n % ADDRESSES, 40);
  }

  lemma InRange(a: nat, bound: nat)
    requires a < bound
    ensures a % bound == a
  {
  }

  /** Different addresses have different texts, and so do different token ids. */
  lemma SameAddress(a: nat, b: nat)
    requires a < ADDRESSES && b < ADDRESSES
    ensures AddrText(a) == AddrText(b) <==> a == b
  {
    InRange(a, ADDRESSES);
    InRange(b, ADDRESSES);
    if AddrText(a) == AddrText(b) { AddrTextInjective(a, b); }
  }

  lemma SameToken(t: nat, u: nat)
    ensures TokenText(t) == TokenText(u) <==> t == u
  {
    TokenTextNumber(t);
    TokenTextNumber(u);
  }

  /** The i-th data word, zero when the data is too short. */
  function Word(data: seq<Byte>, i: nat): (n: nat)
    ensures |data| < 32 * (i + 1) ==> n == 0
  {
    if |data| >= 32 * (i + 1) then BigEndian(data[32 * i..32 * (i + 1)]) else 0
  }

  /** The i-th word of data that was encoded word by word is the number encoded there. */
  lemma {:induction false} WordAt(data: seq<Byte>, i: nat, n: nat)
    requires n < WORDS && 32 * (i + 1) <= |data| && data[32 * i..32 * (i + 1)] == WordBytes(n, 32)
    ensures Word(data, i) == n
  {
    WordValue(n, 32);
  }

  /** Of data that begins with an encoded number, the first word is that number. */
  lemma {:induction false} FirstWord(n: nat, tail: seq<Byte>)
    requires n < WORDS
    ensures Word(WordBytes(n, 32) + tail, 0) == n
  {
    var data := WordBytes(n, 32) + tail;
    assert data[0..32] == WordBytes(n, 32);
    WordAt(data, 0, n);
  }

  // ---------- token events ----------

  /** The ledger operation a log stands for, if any. Transfers from or to the zero address are left
      to the mint and burn events; a forced transfer leaves balances to its paired transfer. */
  function LedgerOp(l: Log): Option<Op> {
    match l.sig
    case Minted =>
      if |l.args| < 2 then None
      else Some(Mint(TokenText(l.args[0]), AddrText(l.args[1]), BigEndian(l.data)))
    case Burned =>
      if |l.args| < 2 then None
      else Some(Burn(TokenText(l.args[0]), AddrText(l.args[1]), BigEndian(l.data)))
    case TransferSingle =>
      if |l.args| < 3 || |l.data| < 64 then None
      else if l.args[1] % ADDRESSES == 0 || l.args[2] % ADDRESSES == 0 then None
      else Some(Transfer(TokenText(Word(l.data, 0)), AddrText(l.args[1]), AddrText(l.args[2]), Word(l.data, 1)))
    case _ => None
  }

  function ForcedWrites(l: Log): seq<Write> {
    if |l.args| < 3 then []
    else [EventWrite(TransferEvent(l.tx, l.block, l.index, AddrText(l.args[1]), AddrText(l.args[2]),
                                   TokenText(l.args[0]), Word(l.data, 0), "forced_transfer"))]
  }

  // ---------- generic events ----------

  /** How a signature is recorded: event name, topics it cannot do without, and which topic holds the
      token id and which the address. */
  datatype Shape = Shape(kind: string, need: nat, token: Option<nat>, addr: Option<nat>)

  function ShapeOf(sig: Signature): Option<Shape> {
    match sig
    case NoTopics => None
    case Unknown => None
    case Minted => None
    case Burned => None
    case ForcedTransfer => None
    case TransferSingle => None
    case AssetRegistered => Some(Shape("asset_registered", 2, Some(0), Some(1)))
    case AssetConfigUpdated => Some(Shape("asset_config_updated", 0, Some(0), None))
    case ComplianceModuleAdded => Some(Shape("compliance_module_added", 0, Some(0), Some(1)))
    case ComplianceModuleRemoved => Some(Shape("compliance_module_removed", 0, Some(0), Some(1)))
    case URI => Some(Shape("uri_updated", 1, Some(0), None))
    case IdentityBound => Some(Shape("identity_bound", 2, None, Some(0)))
    case IdentityUnbound => Some(Shape("identity_unbound", 1, None, Some(0)))
    case WalletFrozen => Some(Shape("wallet_frozen", 1, None, Some(0)))
    case AssetFrozen => Some(Shape("asset_frozen", 2, Some(0), Some(1)))
    case PartialFreeze => Some(Shape("partial_freeze", 2, Some(0), Some(1)))
    case LockupSet => Some(Shape("lockup_set", 2, Some(0), Some(1)))
    case RoleGranted => Some(Shape("role_granted", 3, None, Some(1)))
    case RoleRevoked => Some(Shape("role_revoked", 3, None, Some(1)))
    case EmergencyPause => Some(Shape("emergency_pause", 0, None, Some(0)))
    case ProtocolUnpaused => Some(Shape("protocol_unpaused", 0, None, Some(0)))
    case AssetPaused => Some(Shape("asset_paused", 2, Some(0), Some(1)))
    case AssetUnpaused => Some(Shape("asset_unpaused", 2, Some(0), Some(1)))
    case WalletRecovered => Some(Shape("wallet_recovered", 3, None, Some(1)))
    case SnapshotCreated => Some(Shape("snapshot_created", 2, Some(1), None))
    case DividendCreated => Some(Shape("dividend_created", 3, Some(1), None))
    case DividendClaimed => Some(Shape("dividend_claimed", 2, None, Some(1)))
    case GroupCreated => Some(Shape("group_created", 0, Some(0), None))
    case UnitMinted => Some(Shape("unit_minted", 0, Some(0), None))
    case GlobalPluginRegistered => Some(Shape("global_plugin_registered", 1, None, Some(0)))
    case GlobalPluginRemoved => Some(Shape("global_plugin_removed", 0, None, Some(0)))
    case GlobalPluginStatusChanged => Some(Shape("global_plugin_status_changed", 1, None, Some(0)))
    case PluginModuleAdded => Some(Shape("plugin_module_added", 0, Some(0), Some(1)))
    case PluginModuleRemoved => Some(Shape("plugin_module_removed", 0, Some(0), Some(1)))
    case PluginModulesSet => Some(Shape("plugin_modules_set", 0, Some(0), None))
    case RewardAssetAdded => Some(Shape("reward_asset_added", 2, Some(0), Some(1)))
    case RewardAssetRemoved => Some(Shape("reward_asset_removed", 2, Some(0), Some(1)))
    case YieldDeposited => Some(Shape("yield_deposited", 2, Some(0), None))
    case YieldClaimed => Some(Shape("yield_claimed", 3, Some(0), Some(2)))
    case CountryRestricted => Some(Shape("country_restricted", 2, Some(0), None))
    case CountryUnrestricted => Some(Shape("country_unrestricted", 2, Some(0), None))
    case MaxBalanceSet => Some(Shape("max_balance_set", 1, Some(0), None))
    case MaxHoldersSet => Some(Shape("max_holders_set", 1, Some(0), None))
  }

  /** The generic event a log leaves, if any: it depends on the log alone. */
  function GenericOf(l: Log): Option<GenericEvent> {
    match ShapeOf(l.sig)
    case None => None
    case Some(s) =>
      if |l.args| < s.need then None
      else Some(GenericEvent(l.tx, l.block, l.index, s.kind,
        if s.token.Some? && s.token.value < |l.args| then TokenText(l.args[s.token.value]) else "",
        if s.addr.Some? && s.addr.value < |l.args| then AddrText(l.args[s.addr.value]) else ""))
  }

  function GenericPart(l: Log): seq<Write> {
    match GenericOf(l) case Some(e) => GenericWrites(e) case None => []
  }

  // ---------- records of their own ----------

  /** The freeze amount as reported: decimal text, empty when the data is too short. */
  function AmountText(data: seq<Byte>): string { if |data| >= 32 then Decimal(Word(data, 0)) else "" }

  /** The asset URI; malformed data gives the empty string. */
  function UriText(data: seq<Byte>): seq<nat> {
    match DecodeString(data) case Text(s) => s case _ => []
  }

  /** The writes before the generic event; none when a topic is missing. */
  function RecordPart(tb: Table, l: Log): seq<Write> {
    if |l.args| < RecordNeeds(l.sig) then [] else RecordWrites(tb, l)
  }

  /** Topics, after the first, that an event with a record of its own cannot do without. */
  function RecordNeeds(sig: Signature): nat {
    match sig
    case URI => 1
    case IdentityUnbound => 1
    case WalletFrozen => 1
    case WalletRecovered => 3
    case _ => 2
  }

  function RecordWrites(tb: Table, l: Log): seq<Write>
    requires |l.args| >= RecordNeeds(l.sig)
  {
    match l.sig
    case AssetRegistered =>
      [AssetWrite(AssetConfig(TokenText(l.args[0]), AddrText(l.args[1]),
                              Word(l.data, 0) % 0x1_0000_0000, [], false, l.block))]
    case URI => [AssetWrite(AssetOf(tb, TokenText(l.args[0])).(uri := UriText(l.data)))]
    case AssetPaused => [AssetWrite(AssetOf(tb, TokenText(l.args[0])).(paused := true))]
    case AssetUnpaused => [AssetWrite(AssetOf(tb, TokenText(l.args[0])).(paused := false))]
    case IdentityBound =>
      BindWrites(Identity(AddrText(l.args[0]), AddrText(l.args[1]), Word(l.data, 0) % 0x1_0000, l.block))
    case IdentityUnbound => UnbindWrites(tb, AddrText(l.args[0]))
    case WalletRecovered => RecoverWrites(tb, AddrText(l.args[0]), AddrText(l.args[1]), l.block)
    case WalletFrozen =>
      [FreezeWrite(FreezeState(AddrText(l.args[0]), "", Word(l.data, 0) != 0, "", 0))]
    case AssetFrozen =>
      [FreezeWrite(FreezeState(AddrText(l.args[1]), TokenText(l.args[0]), Word(l.data, 0) != 0, "", 0))]
    case PartialFreeze =>
      [FreezeWrite(FreezeOrNew(tb, AddrText(l.args[1]), TokenText(l.args[0])).(amount := AmountText(l.data)))]
    case LockupSet =>
      [FreezeWrite(FreezeOrNew(tb, AddrText(l.args[1]), TokenText(l.args[0])).(lockup := Word(l.data, 0) % TWO64))]
    case _ => []
  }

  // ---------- handling a log ----------

  /** Handling does not fail at run time: a forced transfer carries its amount, and the string in a
      URI or plugin event does not make a slice go out of range. */
  predicate Readable(l: Log) {
    && l.block < TWO64 - 1
    && |l.data| < TWO64
    && (l.sig == ForcedTransfer && |l.args| >= 3 ==> |l.data| >= 32)
    && ((l.sig == URI || l.sig == GlobalPluginRegistered) && |l.args| >= 1 ==>
         DecodeString(l.data) != OutOfRange)
  }

  function HandlerWrites(tb: Table, l: Log): seq<Write> {
    match LedgerOp(l)
    case Some(op) => OpWrites(tb, op, l.Stamp())
    case None =>
      if l.sig == ForcedTransfer then ForcedWrites(l)
      else RecordPart(tb, l) + GenericPart(l)
  }

  /** All writes for one log, the cursor last; none at all for a log without topics. */
  function LogWrites(tb: Table, l: Log): seq<Write> {
    if l.sig == NoTopics then [] else HandlerWrites(tb, l) + [CursorWrite(l.block)]
  }

  /** Token events write ledger rows, a transfer event and the cursor only. */
  lemma TokenLogKeys(tb: Table, l: Log)
    requires LedgerOp(l).Some? || l.sig == ForcedTransfer || l.sig == NoTopics
    ensures forall i :: 0 <= i < |LogWrites(tb, l)| ==>
      MoneyKey(LogWrites(tb, l)[i].key) || LogWrites(tb, l)[i].key == CursorKey
  {
    if LedgerOp(l).Some? { OpKeys(tb, LedgerOp(l).value, l.Stamp()); }
  }

  /** The rows that events with a record of their own go to. */
  predicate RecordKey(k: Key) { k.AssetKey? || k.IdentityKey? || k.CountryKey? || k.FreezeKey? }

  lemma IdentityKeys(tb: Table, l: Log)
    requires IsIdentity(l.sig) && |l.args| >= RecordNeeds(l.sig)
    ensures forall i :: 0 <= i < |RecordWrites(tb, l)| ==> RecordKey(RecordWrites(tb, l)[i].key)
  {
  }

  predicate IsAsset(sig: Signature) {
    sig == AssetRegistered || sig == URI || sig == AssetPaused || sig == AssetUnpaused
  }

  lemma AssetKeys(tb: Table, l: Log)
    requires IsAsset(l.sig) && |l.args| >= RecordNeeds(l.sig)
    ensures |RecordWrites(tb, l)| == 1 && RecordKey(RecordWrites(tb, l)[0].key) && RecordWrites(tb, l)[0].Put?
  {
  }

  predicate IsFreeze(sig: Signature) {
    sig == WalletFrozen || sig == AssetFrozen || sig == PartialFreeze || sig == LockupSet
  }

  lemma FreezeKeys(tb: Table, l: Log)
    requires IsFreeze(l.sig) && |l.args| >= RecordNeeds(l.sig)
    ensures |RecordWrites(tb, l)| == 1 && RecordKey(RecordWrites(tb, l)[0].key)
  {
  }

  lemma NoRecord(tb: Table, l: Log)
    requires !IsIdentity(l.sig) && !IsAsset(l.sig) && !IsFreeze(l.sig) && |l.args| >= RecordNeeds(l.sig)
    ensures RecordWrites(tb, l) == []
  {
  }

  lemma RecordKeys(tb: Table, l: Log)
    ensures forall i :: 0 <= i < |RecordPart(tb, l)| ==> RecordKey(RecordPart(tb, l)[i].key)
  {
    if |l.args| >= RecordNeeds(l.sig) {
      if IsIdentity(l.sig) {
        IdentityKeys(tb, l);
      } else if IsAsset(l.sig) {
        AssetKeys(tb, l);
      } else if IsFreeze(l.sig) {
        FreezeKeys(tb, l);
      } else {
        NoRecord(tb, l);
      }
    }
  }

  /** Handling a list of logs, one after the other. */
  function HandleAll(tb: Table, logs: seq<Log>): Table {
    if logs == [] then tb
    else
      var mid := HandleAll(tb, logs[..|logs| - 1]);
      ApplyAll(mid, LogWrites(mid, logs[|logs| - 1]))
  }

  // ---------- the writes fit their keys ----------

  lemma FreezeFits(tb: Table, w: Addr, s: OptToken)
    requires Typed(tb)
    ensures FreezeOrNew(tb, w, s).wallet == w && FreezeOrNew(tb, w, s).token == s
  {
    if FreezeKey(w, s) in tb { assert Fits(FreezeKey(w, s), tb[FreezeKey(w, s)]); }
  }

  lemma AssetFits(tb: Table, t: Token)
    requires Typed(tb)
    ensures AssetOf(tb, t).token == t
  {
    if AssetKey(t) in tb { assert Fits(AssetKey(t), tb[AssetKey(t)]); }
  }

  /** Events whose record spans the identity row and the country index. */
  predicate IsIdentity(sig: Signature) {
    sig == IdentityBound || sig == IdentityUnbound || sig == WalletRecovered
  }

  lemma IdentityFits(tb: Table, l: Log)
    requires Typed(tb) && IsIdentity(l.sig) && |l.args| >= RecordNeeds(l.sig)
    ensures AllFit(RecordWrites(tb, l))
  {
    if l.sig == WalletRecovered {
      RecoverFits(tb, AddrText(l.args[0]), AddrText(l.args[1]), l.block);
    } else if l.sig == IdentityUnbound {
      UnbindFits(tb, AddrText(l.args[0]));
    }
  }

  lemma UnbindFits(tb: Table, w: Addr)
    ensures AllFit(UnbindWrites(tb, w))
  {
  }

  lemma OneFits(tb: Table, l: Log)
    requires Typed(tb) && !IsIdentity(l.sig) && |l.args| >= RecordNeeds(l.sig)
    ensures |RecordWrites(tb, l)| <= 1
    ensures RecordWrites(tb, l) != [] ==> RecordWrites(tb, l)[0].Fit()
  {
    if l.sig == PartialFreeze || l.sig == LockupSet {
      FreezeFits(tb, AddrText(l.args[1]), TokenText(l.args[0]));
    } else if l.sig == URI || l.sig == AssetPaused || l.sig == AssetUnpaused {
      AssetFits(tb, TokenText(l.args[0]));
    }
  }

  lemma RecordFits(tb: Table, l: Log)
    requires Typed(tb)
    ensures AllFit(RecordPart(tb, l))
  {
    if |l.args| >= RecordNeeds(l.sig) {
      if IsIdentity(l.sig) {
        IdentityFits(tb, l);
      } else {
        OneFits(tb, l);
      }
    }
  }

  lemma LogFits(tb: Table, l: Log)
    requires Typed(tb) && Readable(l)
    ensures AllFit(LogWrites(tb, l))
  {
    match LedgerOp(l)
    case Some(op) =>
      OpFits(tb, op, l.Stamp());
      FitConcat(OpWrites(tb, op, l.Stamp()), [CursorWrite(l.block)]);
    case None =>
      if l.sig != ForcedTransfer { OtherFits(tb, l); }
  }

  lemma OtherFits(tb: Table, l: Log)
    requires Typed(tb) && Readable(l)
    ensures AllFit(RecordPart(tb, l) + GenericPart(l) + [CursorWrite(l.block)])
  {
    RecordFits(tb, l);
    if GenericOf(l).Some? { GenericFits(GenericOf(l).value); }
    FitConcat(RecordPart(tb, l), GenericPart(l));
    FitConcat(RecordPart(tb, l) + GenericPart(l), [CursorWrite(l.block)]);
  }

  lemma {:induction false} LogTyped(tb: Table, l: Log)
    requires Typed(tb) && Readable(l)
    ensures Typed(ApplyAll(tb, LogWrites(tb, l)))
  {
    LogFits(tb, l);
    ApplyTyped(tb, LogWrites(tb, l));
  }

  ghost predicate AllReadable(logs: seq<Log>) {
    forall i :: 0 <= i < |logs| ==> Readable(logs[i])
  }

  lemma {:induction false} HandledTyped(tb: Table, logs: seq<Log>)
    requires Typed(tb) && AllReadable(logs)
    ensures Typed(HandleAll(tb, logs))
  {
    if logs != [] {
      HandledTyped(tb, logs[..|logs| - 1]);
      LogTyped(HandleAll(tb, logs[..|logs| - 1]), logs[|logs| - 1]);
    }
  }
}
