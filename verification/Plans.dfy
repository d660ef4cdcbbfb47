/** The writes each store operation issues, in the order it issues them.

Every operation of the store is a read of the current rows followed by a fixed sequence of writes.
Naming that sequence makes it possible to speak of a stop between any two of them.
*/
module Plans {
  import opened Numerals
  import opened Keys
  import opened Rows
  import opened Ledger

  const ZERO_ADDR: Addr := "0x" + HexDigits(0, 40)

  /** Where a log comes from: transaction, block and position in the block. */
  datatype Stamp = Stamp(tx: nat, block: nat, index: nat)

  // ---------- ledger ----------

  function MetaOf(tb: Table, t: Token): TokenMeta {
    if MetaKey(t) in tb && tb[MetaKey(t)].Meta? then tb[MetaKey(t)].meta else TokenMeta(t, 0, 0)
  }

  function BalanceOf(tb: Table, t: Token, a: Addr): int {
    if HolderKey(t, a) in tb && tb[HolderKey(t, a)].Amount? then tb[HolderKey(t, a)].n else 0
  }

  function PutHolder(t: Token, a: Addr, n: int): seq<Write> {
    [Put(HolderKey(t, a), Amount(n)), Put(HolderAddrKey(a, t), Amount(n))]
  }

  function DropHolder(t: Token, a: Addr): seq<Write> {
    [Delete(HolderKey(t, a)), Delete(HolderAddrKey(a, t))]
  }

  function DebitWrites(tb: Table, t: Token, a: Addr, n: nat): seq<Write> {
    var left := BalanceOf(tb, t, a) - n;
    if left <= 0 then DropHolder(t, a) else PutHolder(t, a, left)
  }

  function CreditWrites(tb: Table, t: Token, a: Addr, n: nat): seq<Write> {
    PutHolder(t, a, BalanceOf(tb, t, a) + n)
  }

  /** The counter after a debit (when the balance is used up) and after a credit (to nothing). */
  function CountDebit(c: nat, balance: int, n: nat): nat { if balance - n <= 0 then Dec(c) else c }
  function CountCredit(c: nat, balance: int): nat { if balance == 0 then Inc(c) else c }

  function EventWrite(e: TransferEvent): Write { Put(EventKey(e.block, e.index), Event(e)) }

  function OpEvent(op: Op, st: Stamp): TransferEvent {
    match op
    case Mint(t, to, n) => TransferEvent(st.tx, st.block, st.index, ZERO_ADDR, to, t, n, "mint")
    case Burn(t, from, n) => TransferEvent(st.tx, st.block, st.index, from, ZERO_ADDR, t, n, "burn")
    case Transfer(t, from, to, n) =>
      TransferEvent(st.tx, st.block, st.index, from, to, t, n, "transfer")
  }

  /** The holder rows an operation writes; a transfer credits after reading its own debit. */
  function HolderWrites(tb: Table, op: Op): seq<Write> {
    match op
    case Mint(t, to, n) => CreditWrites(tb, t, to, n)
    case Burn(t, from, n) => DebitWrites(tb, t, from, n)
    case Transfer(t, from, to, n) =>
      var debit := DebitWrites(tb, t, from, n);
      debit + CreditWrites(ApplyAll(tb, debit), t, to, n)
  }

  /** The metadata an operation writes back, from the metadata read before any holder row moved. */
  function NewMeta(tb: Table, op: Op): TokenMeta {
    var m := MetaOf(tb, op.token);
    match op
    case Mint(t, to, n) =>
      m.(supply := m.supply + n, count := CountCredit(m.count, BalanceOf(tb, t, to)))
    case Burn(t, from, n) =>
      m.(supply := m.supply - n, count := CountDebit(m.count, BalanceOf(tb, t, from), n))
    case Transfer(t, from, to, n) =>
      var mid := ApplyAll(tb, DebitWrites(tb, t, from, n));
      m.(count := CountCredit(CountDebit(m.count, BalanceOf(tb, t, from), n), BalanceOf(mid, t, to)))
  }

  function MetaWrite(m: TokenMeta): Write { Put(MetaKey(m.token), Meta(m)) }

  function OpWrites(tb: Table, op: Op, st: Stamp): seq<Write> {
    HolderWrites(tb, op) + [MetaWrite(NewMeta(tb, op)), EventWrite(OpEvent(op, st))]
  }

  /** The rows an operation goes to. */
  predicate MoneyKey(k: Key) { k.MetaKey? || k.HolderKey? || k.HolderAddrKey? || k.EventKey? }

  lemma HolderKeys(tb: Table, op: Op)
    ensures forall i :: 0 <= i < |HolderWrites(tb, op)| ==> MoneyKey(HolderWrites(tb, op)[i].key)
  {
  }

  lemma OpKeys(tb: Table, op: Op, st: Stamp)
    ensures forall i :: 0 <= i < |OpWrites(tb, op, st)| ==> MoneyKey(OpWrites(tb, op, st)[i].key)
  {
    HolderKeys(tb, op);
  }

  // ---------- generic events: the primary first, then its index entries ----------

  function PrimaryWrite(e: GenericEvent): Write { Put(GenericKey(e.block, e.index), Generic(e)) }

  function TokenEntry(e: GenericEvent): seq<Write> {
    if e.token == "" then []
    else [Put(GeTokenKey(e.token, e.block, e.index), KeyRef(GenericKey(e.block, e.index).Encode()))]
  }

  function AddrEntry(e: GenericEvent): seq<Write> {
    if e.addr == "" then []
    else [Put(GeAddrKey(e.addr, e.block, e.index), KeyRef(GenericKey(e.block, e.index).Encode()))]
  }

  function GenericWrites(e: GenericEvent): seq<Write> {
    [PrimaryWrite(e)] + TokenEntry(e) + AddrEntry(e)
  }

  // ---------- identities and their country index ----------

  function IdentityOf(tb: Table, w: Addr): Option<Identity> {
    if IdentityKey(w) in tb && tb[IdentityKey(w)].Ident? then Some(tb[IdentityKey(w)].id) else None
  }

  function BindWrites(id: Identity): seq<Write> {
    [Put(IdentityKey(id.wallet), Ident(id)), Put(CountryKey(id.country, id.wallet), Wallet(id.wallet))]
  }

  function UnbindWrites(tb: Table, w: Addr): seq<Write> {
    (match IdentityOf(tb, w)
     case Some(id) => [Delete(CountryKey(id.country, w))]
     case None => []) +
    [Delete(IdentityKey(w))]
  }

  /** Recovery rebinds the new wallet first and then unbinds the lost one. */
  function RecoverWrites(tb: Table, lost: Addr, next: Addr, block: nat): seq<Write> {
    match IdentityOf(tb, lost)
    case None => []
    case Some(id) =>
      var bind := BindWrites(Identity(next, id.identity, id.country, block));
      bind + UnbindWrites(ApplyAll(tb, bind), lost)
  }

  // ---------- freeze records ----------

  function FreezeOf(tb: Table, w: Addr, s: OptToken): Option<FreezeState> {
    if FreezeKey(w, s) in tb && tb[FreezeKey(w, s)].Freeze? then Some(tb[FreezeKey(w, s)].state) else None
  }

  function FreezeOrNew(tb: Table, w: Addr, s: OptToken): FreezeState {
    match FreezeOf(tb, w, s) case Some(f) => f case None => FreezeState(w, s, false, "", 0)
  }

  function FreezeWrite(f: FreezeState): Write { Put(FreezeKey(f.wallet, f.token), Freeze(f)) }

  // ---------- assets ----------

  function AssetOf(tb: Table, t: Token): AssetConfig {
    if AssetKey(t) in tb && tb[AssetKey(t)].Asset? then tb[AssetKey(t)].asset
    else AssetConfig(t, "", 0, [], false, 0)
  }

  function AssetWrite(a: AssetConfig): Write { Put(AssetKey(a.token), Asset(a)) }

  // ---------- cursor ----------

  function CursorOf(tb: Table): nat {
    if CursorKey in tb && tb[CursorKey].Block? then tb[CursorKey].block else 0
  }

  function CursorWrite(b: nat): Write { Put(CursorKey, Block(b)) }

  // ---------- every write fits its key ----------

  lemma MetaToken(tb: Table, t: Token)
    requires Typed(tb)
    ensures MetaOf(tb, t).token == t && MetaOf(tb, t).count < TWO64
  {
    if MetaKey(t) in tb { assert Fits(MetaKey(t), tb[MetaKey(t)]); }
  }

  lemma BalanceNonNegative(tb: Table, t: Token, a: Addr)
    requires Typed(tb)
    ensures BalanceOf(tb, t, a) >= 0
  {
    if HolderKey(t, a) in tb { assert Fits(HolderKey(t, a), tb[HolderKey(t, a)]); }
  }

  lemma FitConcat(u: seq<Write>, v: seq<Write>)
    requires AllFit(u) && AllFit(v)
    ensures AllFit(u + v)
  {
    forall i | 0 <= i < |u + v| ensures (u + v)[i].Fit() {
      if i < |u| { assert u[i].Fit(); } else { assert v[i - |u|].Fit(); }
    }
  }

  lemma DebitFits(tb: Table, t: Token, a: Addr, n: nat)
    ensures AllFit(DebitWrites(tb, t, a, n))
  {
  }

  lemma CreditFits(tb: Table, t: Token, a: Addr, n: nat)
    requires Typed(tb)
    ensures AllFit(CreditWrites(tb, t, a, n))
  {
    BalanceNonNegative(tb, t, a);
  }

  lemma HolderFits(tb: Table, op: Op)
    requires Typed(tb)
    ensures AllFit(HolderWrites(tb, op))
  {
    match op
    case Mint(t, to, n) => CreditFits(tb, t, to, n);
    case Burn(t, from, n) => DebitFits(tb, t, from, n);
    case Transfer(t, from, to, n) =>
      var debit := DebitWrites(tb, t, from, n);
      DebitFits(tb, t, from, n);
      ApplyTyped(tb, debit);
      CreditFits(ApplyAll(tb, debit), t, to, n);
      FitConcat(debit, CreditWrites(ApplyAll(tb, debit), t, to, n));
  }

  lemma OpFits(tb: Table, op: Op, st: Stamp)
    requires Typed(tb)
    ensures AllFit(OpWrites(tb, op, st))
  {
    HolderFits(tb, op);
    MetaToken(tb, op.token);
    FitConcat(HolderWrites(tb, op), [MetaWrite(NewMeta(tb, op)), EventWrite(OpEvent(op, st))]);
  }

  lemma GenericFits(e: GenericEvent)
    ensures AllFit(GenericWrites(e))
  {
  }

  lemma RecoverFits(tb: Table, lost: Addr, next: Addr, block: nat)
    requires Typed(tb)
    ensures AllFit(RecoverWrites(tb, lost, next, block))
  {
  }
}
