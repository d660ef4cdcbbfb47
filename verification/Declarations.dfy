/** The events as the contracts declare them, and how they are filed.

Every indexed parameter of an event has a role: the token concerned, the party concerned, or
neither. An event should be filed under its token and its party; that holds of every declared event
but the two of the asset groups, which are filed under the number of the group.
*/
module Declarations {
  import opened Keys
  import opened Rows
  import opened Plans
  import opened Logs
  import opened Replay
  import opened EventIndex
  import opened IndexRuns
  import opened Transfers

  datatype Role = TokenId | Party | Other | Absent

  /** The name an event is filed by, and the roles of its indexed parameters in order: at most three. */
  datatype Declaration = Declaration(name: string, first: Role, second: Role, third: Role) {
    /** The first parameter with a role. */
    function Place(r: Role): (i: Option<nat>)
      ensures r != Absent && i.Some? ==> i.value < Count()
    {
      if first == r then Some(0) else if second == r then Some(1) else if third == r then Some(2) else None
    }

    function Count(): nat {
      if third != Absent then 3 else if second != Absent then 2 else if first != Absent then 1 else 0
    }
  }

  /** The declarations; the events of the ledger are filed as transfers instead. */
  function Declared(sig: Signature): Option<Declaration> {
    match sig
    case AssetRegistered => Some(Declaration("asset_registered", TokenId, Party, Absent))
    case AssetConfigUpdated => Some(Declaration("asset_config_updated", TokenId, Absent, Absent))
    case ComplianceModuleAdded => Some(Declaration("compliance_module_added", TokenId, Party, Absent))
    case ComplianceModuleRemoved => Some(Declaration("compliance_module_removed", TokenId, Party, Absent))
    case URI => Some(Declaration("uri_updated", TokenId, Absent, Absent))
    case IdentityBound => Some(Declaration("identity_bound", Party, Other, Absent))
    case IdentityUnbound => Some(Declaration("identity_unbound", Party, Absent, Absent))
    case WalletFrozen => Some(Declaration("wallet_frozen", Party, Absent, Absent))
    case AssetFrozen => Some(Declaration("asset_frozen", TokenId, Party, Absent))
    case PartialFreeze => Some(Declaration("partial_freeze", TokenId, Party, Absent))
    case LockupSet => Some(Declaration("lockup_set", TokenId, Party, Absent))
    case RoleGranted => Some(Declaration("role_granted", Other, Party, Other))
    case RoleRevoked => Some(Declaration("role_revoked", Other, Party, Other))
    case EmergencyPause => Some(Declaration("emergency_pause", Party, Absent, Absent))
    case ProtocolUnpaused => Some(Declaration("protocol_unpaused", Party, Absent, Absent))
    case AssetPaused => Some(Declaration("asset_paused", TokenId, Party, Absent))
    case AssetUnpaused => Some(Declaration("asset_unpaused", TokenId, Party, Absent))
    case WalletRecovered => Some(Declaration("wallet_recovered", Other, Party, Other))
    case SnapshotCreated => Some(Declaration("snapshot_created", Other, TokenId, Absent))
    case DividendCreated => Some(Declaration("dividend_created", Other, TokenId, Other))
    case DividendClaimed => Some(Declaration("dividend_claimed", Other, Party, Absent))
    case GroupCreated => Some(Declaration("group_created", Other, TokenId, Absent))
    case UnitMinted => Some(Declaration("unit_minted", Other, TokenId, Party))
    case GlobalPluginRegistered => Some(Declaration("global_plugin_registered", Party, Absent, Absent))
    case GlobalPluginRemoved => Some(Declaration("global_plugin_removed", Party, Absent, Absent))
    case GlobalPluginStatusChanged => Some(Declaration("global_plugin_status_changed", Party, Absent, Absent))
    case PluginModuleAdded => Some(Declaration("plugin_module_added", TokenId, Party, Absent))
    case PluginModuleRemoved => Some(Declaration("plugin_module_removed", TokenId, Party, Absent))
    case PluginModulesSet => Some(Declaration("plugin_modules_set", TokenId, Absent, Absent))
    case RewardAssetAdded => Some(Declaration("reward_asset_added", TokenId, Party, Absent))
    case RewardAssetRemoved => Some(Declaration("reward_asset_removed", TokenId, Party, Absent))
    case YieldDeposited => Some(Declaration("yield_deposited", TokenId, Other, Absent))
    case YieldClaimed => Some(Declaration("yield_claimed", TokenId, Other, Party))
    case CountryRestricted => Some(Declaration("country_restricted", TokenId, Other, Absent))
    case CountryUnrestricted => Some(Declaration("country_unrestricted", TokenId, Other, Absent))
    case MaxBalanceSet => Some(Declaration("max_balance_set", TokenId, Absent, Absent))
    case MaxHoldersSet => Some(Declaration("max_holders_set", TokenId, Absent, Absent))
    case NoTopics => None
    case Unknown => None
    case Minted => None
    case Burned => None
    case ForcedTransfer => None
    case TransferSingle => None
  }

  /** A log as the contracts emit it: a topic for every indexed parameter. */
  predicate AsDeclared(l: Log) {
    Declared(l.sig).Some? ==> |l.args| == Declared(l.sig).value.Count()
  }

  /** What should be filed: the event under its name, token and party. */
  function Due(l: Log): Option<GenericEvent>
    requires AsDeclared(l)
  {
    match Declared(l.sig)
    case None => None
    case Some(d) =>
      Some(GenericEvent(l.tx, l.block, l.index, d.name,
        match d.Place(TokenId) case None => "" case Some(i) => TokenText(l.args[i]),
        match d.Place(Party) case None => "" case Some(i) => AddrText(l.args[i])))
  }

  /** Filed under the number of a group, and without the investor of a unit. */
  predicate Misfiled(l: Log) {
    || (l.sig == GroupCreated && |l.args| >= 2 && l.args[0] != l.args[1])
    || l.sig == UnitMinted
  }

  predicate OfGroup(sig: Signature) { sig == GroupCreated || sig == UnitMinted }

  /** Events that are filed even if topics are missing. */
  predicate Lenient(sig: Signature) {
    || sig == AssetConfigUpdated || sig == PluginModulesSet || sig == GroupCreated || sig == UnitMinted
    || sig == ComplianceModuleAdded || sig == ComplianceModuleRemoved
    || sig == PluginModuleAdded || sig == PluginModuleRemoved
    || sig == EmergencyPause || sig == ProtocolUnpaused || sig == GlobalPluginRemoved
  }

  /** The parameters an event is filed by are those of the declaration. */
  predicate AsShaped(sig: Signature) {
    && ShapeOf(sig).Some? && Declared(sig).Some?
    && var s, d := ShapeOf(sig).value, Declared(sig).value;
       && s.kind == d.name && s.need == (if Lenient(sig) then 0 else d.Count())
       && s.token == d.Place(TokenId) && s.addr == d.Place(Party)
  }

  predicate OfAsset(sig: Signature) {
    sig == AssetRegistered || sig == AssetConfigUpdated || sig == URI || sig == AssetPaused ||
    sig == AssetUnpaused
  }

  predicate OfPlugin(sig: Signature) {
    sig == ComplianceModuleAdded || sig == ComplianceModuleRemoved || sig == PluginModuleAdded ||
    sig == PluginModuleRemoved || sig == PluginModulesSet || sig == GlobalPluginRegistered ||
    sig == GlobalPluginRemoved || sig == GlobalPluginStatusChanged
  }

  predicate OfWallet(sig: Signature) {
    sig == IdentityBound || sig == IdentityUnbound || sig == RoleGranted || sig == RoleRevoked ||
    sig == WalletRecovered
  }

  predicate OfProtocol(sig: Signature) {
    sig == EmergencyPause || sig == ProtocolUnpaused || sig == SnapshotCreated ||
    sig == DividendCreated || sig == DividendClaimed
  }

  predicate OfYield(sig: Signature) {
    sig == RewardAssetAdded || sig == RewardAssetRemoved || sig == YieldDeposited ||
    sig == YieldClaimed
  }

  predicate OfCountry(sig: Signature) { sig == CountryRestricted || sig == CountryUnrestricted }

  predicate OfLimit(sig: Signature) { sig == MaxBalanceSet || sig == MaxHoldersSet }

  lemma ShapedAsset(sig: Signature)
    requires OfAsset(sig)
    ensures AsShaped(sig)
  {
  }

  lemma ShapedPlugin(sig: Signature)
    requires OfPlugin(sig)
    ensures AsShaped(sig)
  {
  }

  lemma ShapedWallet(sig: Signature)
    requires OfWallet(sig)
    ensures AsShaped(sig)
  {
  }

  lemma ShapedProtocol(sig: Signature)
    requires OfProtocol(sig)
    ensures AsShaped(sig)
  {
  }

  lemma ShapedYield(sig: Signature)
    requires OfYield(sig)
    ensures AsShaped(sig)
  {
  }

  lemma ShapedCountry(sig: Signature)
    requires OfCountry(sig)
    ensures AsShaped(sig)
  {
    assert AsShaped(CountryRestricted) && AsShaped(CountryUnrestricted);
  }

  lemma ShapedLimit(sig: Signature)
    requires OfLimit(sig)
    ensures AsShaped(sig)
  {
    assert AsShaped(MaxBalanceSet) && AsShaped(MaxHoldersSet);
  }

  lemma ShapedFreeze(sig: Signature)
    requires IsFreeze(sig)
    ensures AsShaped(sig)
  {
  }

  lemma NotFiled(sig: Signature)
    requires !OfAsset(sig) && !OfPlugin(sig) && !OfWallet(sig) && !OfProtocol(sig) && !OfYield(sig)
    requires !OfCountry(sig) && !OfLimit(sig) && !IsFreeze(sig) && !OfGroup(sig)
    ensures ShapeOf(sig).None? && Declared(sig).None?
  {
  }

  lemma ShapedAll(sig: Signature)
    requires Declared(sig).Some? && !OfGroup(sig)
    ensures AsShaped(sig)
  {
    if OfAsset(sig) {
      ShapedAsset(sig);
    } else if OfPlugin(sig) {
      ShapedPlugin(sig);
    } else if OfWallet(sig) {
      ShapedWallet(sig);
    } else if OfProtocol(sig) {
      ShapedProtocol(sig);
    } else if OfYield(sig) {
      ShapedYield(sig);
    } else if OfCountry(sig) {
      ShapedCountry(sig);
    } else if OfLimit(sig) {
      ShapedLimit(sig);
    } else if IsFreeze(sig) {
      ShapedFreeze(sig);
    } else {
      NotFiled(sig);
    }
  }

  /** An emitted log is filed as declared exactly when it is not one of the misfiled ones. */
  lemma FiledExactly(l: Log)
    requires AsDeclared(l)
    ensures GenericOf(l) == Due(l) <==> !Misfiled(l)
  {
    if OfGroup(l.sig) {
      GroupFiled(l);
    } else if Declared(l.sig).Some? {
      ShapedAll(l.sig);
      FiledShaped(l);
    } else {
      NoShape(l.sig);
    }
  }

  lemma FiledShaped(l: Log)
    requires AsDeclared(l) && AsShaped(l.sig)
    ensures GenericOf(l) == Due(l)
  {
  }

  lemma NoShape(sig: Signature)
    requires Declared(sig).None?
    ensures ShapeOf(sig).None?
  {
  }

  lemma GroupFiled(l: Log)
    requires AsDeclared(l) && OfGroup(l.sig)
    ensures GenericOf(l).Some? && Due(l).Some? && GenericOf(l).value.token == TokenText(l.args[0])
    ensures |l.args| >= 2 && Due(l).value.token == TokenText(l.args[1])
    ensures GenericOf(l) == Due(l) <==> l.sig == GroupCreated && l.args[0] == l.args[1]
  {
    SameToken(l.args[0], l.args[1]);
  }

  // ---------- logs that miss something ----------

  /** The indexed parameters an event declares. */
  function TopicsOf(sig: Signature): nat {
    if sig == Minted || sig == Burned then 2
    else if sig == ForcedTransfer || sig == TransferSingle then 3
    else match Declared(sig) case Some(d) => d.Count() case None => 0
  }

  predicate Incomplete(l: Log) {
    |l.args| < TopicsOf(l.sig) || (l.sig == TransferSingle && |l.data| < 64)
  }

  /** A log that misses a topic, or a transfer its words, moves the cursor and nothing else, unless it is
      filed leniently. */
  lemma IncompleteExactly(tb: Table, l: Log)
    requires Incomplete(l)
    ensures LogWrites(tb, l) == [CursorWrite(l.block)] <==> !Lenient(l.sig)
  {
    if l.sig == Minted || l.sig == Burned || l.sig == ForcedTransfer || l.sig == TransferSingle {
      IncompleteToken(tb, l);
    } else {
      IncompleteOther(tb, l);
    }
  }

  lemma IncompleteToken(tb: Table, l: Log)
    requires Incomplete(l)
    requires l.sig == Minted || l.sig == Burned || l.sig == ForcedTransfer || l.sig == TransferSingle
    ensures LogWrites(tb, l) == [CursorWrite(l.block)]
  {
  }

  lemma IncompleteOther(tb: Table, l: Log)
    requires Incomplete(l) && l.sig != Minted && l.sig != Burned && l.sig != ForcedTransfer && l.sig != TransferSingle
    ensures LogWrites(tb, l) == [CursorWrite(l.block)] <==> !Lenient(l.sig)
  {
    LogSplit(tb, l);
    GenericMisses(l);
    if !Lenient(l.sig) { NeedsAll(tb, l); }
  }

  lemma GenericMisses(l: Log)
    requires Declared(l.sig).Some? && |l.args| < Declared(l.sig).value.Count()
    ensures if Lenient(l.sig) then GenericOf(l).Some? && GenericPart(l) != [] else GenericPart(l) == []
  {
    if !OfGroup(l.sig) { ShapedAll(l.sig); }
  }

  lemma NeedsAll(tb: Table, l: Log)
    requires Declared(l.sig).Some? && |l.args| < Declared(l.sig).value.Count()
    ensures RecordPart(tb, l) == []
  {
    if IsIdentity(l.sig) || IsAsset(l.sig) || IsFreeze(l.sig) {
    } else if |l.args| >= RecordNeeds(l.sig) {
      NoRecord(tb, l);
    }
  }

  // ---------- over runs ----------

  /** The row at a position after a log: its event if that is its place, else what was there. */
  lemma {:induction false} FiledRow(tb: Table, l: Log, b: nat, i: nat)
    ensures var k, after := GenericKey(b, i), ApplyAll(tb, LogWrites(tb, l));
      if GenericOf(l).Some? && l.block == b && l.index == i
      then k in after && after[k] == Generic(GenericOf(l).value)
      else Agree(after, tb, k)
  {
    if GenericOf(l).Some? && l.block == b && l.index == i {
      OwnRow(tb, l);
    } else {
      var ws := LogWrites(tb, l);
      ElsewhereStays(tb, l, |ws|, b, i);
      assert ws[..|ws|] == ws;
      ApplyElsewhere(tb, ws, GenericKey(b, i));
    }
  }

  lemma {:induction false} OwnRow(tb: Table, l: Log)
    requires GenericOf(l).Some?
    ensures Placed(ApplyAll(tb, LogWrites(tb, l)), l, l.block, l.index)
  {
    LogSplit(tb, l);
    ApplyConcat(tb, RecordPart(tb, l), Rest(l));
    RestRow(ApplyAll(tb, RecordPart(tb, l)), l);
  }

  lemma {:induction false} RestRow(tb: Table, l: Log)
    requires GenericOf(l).Some?
    ensures Placed(ApplyAll(tb, Rest(l)), l, l.block, l.index)
  {
    var g, c := GenericPart(l), [CursorWrite(l.block)];
    ApplyConcat(tb, g, c);
    PlacedThrough(tb, g, l, |g|);
    assert g[..|g|] == g;
    ApplyElsewhere(ApplyAll(tb, g), c, GenericKey(l.block, l.index));
  }

  /** Some log is filed as this event. */
  ghost predicate FiledIn(logs: seq<Log>, e: GenericEvent) {
    exists l :: l in logs && GenericOf(l) == Some(e)
  }

  lemma FiledNext(logs: seq<Log>, e: GenericEvent)
    requires logs != []
    ensures FiledIn(logs, e) <==> FiledIn(logs[..|logs| - 1], e) || GenericOf(logs[|logs| - 1]) == Some(e)
  {
    assert logs == logs[..|logs| - 1] + [logs[|logs| - 1]];
  }

  /** An event filed in the run has the place of its log. */
  lemma FiledPlace(logs: seq<Log>, e: GenericEvent)
    requires FiledIn(logs, e)
    ensures exists j :: 0 <= j < |logs| && logs[j].block == e.block && logs[j].index == e.index
  {
    var l :| l in logs && GenericOf(l) == Some(e);
    var j :| 0 <= j < |logs| && logs[j] == l;
  }

  /** From an empty store, exactly the events of the logs are stored. */
  lemma {:induction false} StoredExactly(logs: seq<Log>, e: GenericEvent)
    requires Apart(logs)
    ensures Stored(HandleAll(map[], logs), e) <==> FiledIn(logs, e)
  {
    if logs != [] {
      var init, l := logs[..|logs| - 1], logs[|logs| - 1];
      StoredExactly(init, e);
      FiledNext(logs, e);
      FiledRow(HandleAll(map[], init), l, e.block, e.index);
      if FiledIn(init, e) { FiledPlace(init, e); }
    }
  }

  /** The declared event of some log. */
  ghost predicate DueIn(logs: seq<Log>, e: GenericEvent)
    requires forall l :: l in logs ==> AsDeclared(l)
  {
    exists l :: l in logs && Due(l) == Some(e)
  }

  /** From an empty store, the declared events of the logs, by name, token and party, are all stored, and
      nothing else is, exactly when no log is misfiled. */
  lemma {:induction false} DueExactly(logs: seq<Log>)
    requires Apart(logs) && forall l :: l in logs ==> AsDeclared(l)
    ensures (forall e :: Stored(HandleAll(map[], logs), e) <==> DueIn(logs, e)) <==>
      forall l :: l in logs ==> !Misfiled(l)
  {
    var tb := HandleAll(map[], logs);
    if forall l :: l in logs ==> !Misfiled(l) {
      forall e ensures Stored(tb, e) <==> DueIn(logs, e) {
        StoredExactly(logs, e);
        DueWhenFiled(logs, e);
      }
    } else {
      var l :| l in logs && Misfiled(l);
      MisfiledMissing(logs, l);
      StoredExactly(logs, Due(l).value);
      assert DueIn(logs, Due(l).value) && !Stored(tb, Due(l).value);
    }
  }

  lemma DueWhenFiled(logs: seq<Log>, e: GenericEvent)
    requires forall l :: l in logs ==> AsDeclared(l) && !Misfiled(l)
    ensures FiledIn(logs, e) <==> DueIn(logs, e)
  {
    forall l | l in logs ensures GenericOf(l) == Due(l) { FiledExactly(l); }
  }

  lemma MisfiledMissing(logs: seq<Log>, l: Log)
    requires Apart(logs) && l in logs && AsDeclared(l) && Misfiled(l)
    ensures Due(l).Some? && !FiledIn(logs, Due(l).value)
  {
    FiledExactly(l);
    GroupFiled(l);
    forall k | k in logs ensures GenericOf(k) != Due(l) {
      if GenericOf(k) == Due(l) { SamePlace(logs, k, l); }
    }
  }

  lemma SamePlace(logs: seq<Log>, k: Log, l: Log)
    requires Apart(logs) && k in logs && l in logs && k.block == l.block && k.index == l.index
    ensures k == l
  {
    var i, j :| 0 <= i < |logs| && 0 <= j < |logs| && logs[i] == k && logs[j] == l;
  }
}
