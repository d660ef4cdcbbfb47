/** The rows of the store: what each key holds, and single writes.

A write is one Put or one Delete, the unit that survives a stop. `Table` is the content of the
database with keys named by their fields; `Fits` says which value belongs under which key.
*/
module Rows {
  import opened KeyOrder
  import opened Keys

  datatype Option<+T> = None | Some(value: T)

  const TWO64: nat := 0x1_0000_0000_0000_0000

  datatype TokenMeta = TokenMeta(token: Token, supply: int, count: nat)

  datatype TransferEvent = TransferEvent(tx: nat, block: nat, index: nat, from: Addr, to: Addr,
                                         token: Token, amount: nat, kind: string)

  datatype GenericEvent = GenericEvent(tx: nat, block: nat, index: nat, kind: string,
                                       token: OptToken, addr: OptAddr)

  datatype AssetConfig = AssetConfig(token: Token, issuer: OptAddr, profile: nat, uri: seq<nat>,
                                     paused: bool, registeredAt: nat)

  datatype Identity = Identity(wallet: Addr, identity: Addr, country: nat, boundAt: nat)

  /** `amount` is the decimal text last reported, or empty. */
  datatype FreezeState = FreezeState(wallet: Addr, token: OptToken, frozen: bool,
                                     amount: string, lockup: nat)

  datatype Value =
    | Meta(meta: TokenMeta)
    | Amount(n: int)
    | Event(event: TransferEvent)
    | Block(block: nat)
    | Generic(generic: GenericEvent)
    | KeyRef(ref: Bytes)
    | Asset(asset: AssetConfig)
    | Ident(id: Identity)
    | Wallet(wallet: Addr)
    | Freeze(state: FreezeState)

  type Table = map<Key, Value>

  /** The kind of value a key holds, and the fields it must repeat. */
  predicate Fits(k: Key, v: Value) {
    match k
    case MetaKey(t) => v.Meta? && v.meta.token == t && v.meta.count < TWO64
    case HolderKey(_, _) => v.Amount? && v.n >= 0
    case HolderAddrKey(_, _) => v.Amount? && v.n >= 0
    case EventKey(b, i) => v.Event? && v.event.block == b && v.event.index == i
    case CursorKey => v.Block? && v.block < TWO64
    case GenericKey(b, i) => v.Generic? && v.generic.block == b && v.generic.index == i
    case GeTokenKey(_, b, i) => v == KeyRef(GenericKey(b, i).Encode())
    case GeAddrKey(_, b, i) => v == KeyRef(GenericKey(b, i).Encode())
    case AssetKey(t) => v.Asset? && v.asset.token == t
    case IdentityKey(w) => v.Ident? && v.id.wallet == w
    case CountryKey(_, w) => v == Wallet(w)
    case FreezeKey(w, s) => v.Freeze? && v.state.wallet == w && v.state.token == s
  }

  ghost predicate Typed(tb: Table) {
    forall k {:trigger Fits(k, tb[k])} :: k in tb ==> Fits(k, tb[k])
  }

  // ---------- writes ----------

  datatype Write = Put(key: Key, val: Value) | Delete(key: Key) {
    predicate Fit() { Put? ==> Fits(key, val) }
  }

  ghost predicate AllFit(ws: seq<Write>) {
    forall i {:trigger ws[i].Fit()} :: 0 <= i < |ws| ==> ws[i].Fit()
  }

  function Apply(tb: Table, w: Write): Table {
    match w
    case Put(k, v) => tb[k := v]
    case Delete(k) => tb - {k}
  }

  function ApplyAll(tb: Table, ws: seq<Write>): Table {
    if ws == [] then tb else Apply(ApplyAll(tb, ws[..|ws| - 1]), ws[|ws| - 1])
  }

  lemma {:induction false} ApplyConcat(tb: Table, u: seq<Write>, v: seq<Write>)
    ensures ApplyAll(tb, u + v) == ApplyAll(ApplyAll(tb, u), v)
  {
    if v == [] {
      assert u + v == u;
    } else {
      var m := |v| - 1;
      ApplyConcat(tb, u, v[..m]);
      assert (u + v)[..|u + v| - 1] == u + v[..m];
    }
  }

  lemma {:induction false} OneWrite(tb: Table, w: Write)
    ensures ApplyAll(tb, [w]) == Apply(tb, w)
  {
    assert [w][..0] == [];
  }

  lemma Regroup<T>(u: seq<T>, v: seq<T>, w: seq<T>)
    ensures (u + v) + w == u + (v + w)
  {
  }

  /** Fitting writes keep the table typed, whichever prefix of them is applied. */
  lemma {:induction false} ApplyTyped(tb: Table, ws: seq<Write>)
    requires Typed(tb) && AllFit(ws)
    ensures Typed(ApplyAll(tb, ws))
  {
    if ws != [] {
      var m := |ws| - 1;
      assert forall i :: 0 <= i < m ==> ws[..m][i] == ws[i] && ws[i].Fit();
      ApplyTyped(tb, ws[..m]);
      assert ws[m].Fit();
      forall k | k in ApplyAll(tb, ws) ensures Fits(k, ApplyAll(tb, ws)[k]) {
        if k in ApplyAll(tb, ws[..m]) { assert Fits(k, ApplyAll(tb, ws[..m])[k]); }
      }
    }
  }

  /** A key no write mentions keeps its row. */
  lemma {:induction false} ApplyElsewhere(tb: Table, ws: seq<Write>, k: Key)
    requires forall i :: 0 <= i < |ws| ==> ws[i].key != k
    ensures k in ApplyAll(tb, ws) <==> k in tb
    ensures k in tb ==> ApplyAll(tb, ws)[k] == tb[k]
  {
    if ws != [] { ApplyElsewhere(tb, ws[..|ws| - 1], k); }
  }
}
