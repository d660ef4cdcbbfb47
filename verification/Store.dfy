/** The store: operations that update rows in place, and the queries over them.

Each mutating method is proved to issue exactly the writes of its plan, in that order, and so to
leave the table the plan describes. Each query is proved to return the list its meaning describes.
*/
module Store {
  import opened KeyOrder
  import opened Keys
  import opened Rows
  import opened Database
  import opened Scans
  import opened Ledger
  import opened Plans
  import opened Accounts
  import opened EventIndex
  import opened Listings

  class Store {
    const db: Db

    ghost predicate Valid()
      reads this, db
    {
      db.Valid()
    }

    constructor (database: Db)
      requires database.Valid()
      ensures db == database && Valid()
    {
      db := database;
    }

    /** The table follows from the writes issued since an earlier state. */
    lemma {:induction false} Caught(before: seq<Write>, tb: Table, ws: seq<Write>)
      requires Valid() && tb == ApplyAll(db.base, before) && db.history == before + ws
      ensures db.table == ApplyAll(tb, ws)
    {
      ApplyConcat(db.base, before, ws);
    }

    /** The same for two groups of writes. */
    lemma {:induction false} CaughtBoth(before: seq<Write>, tb: Table, u: seq<Write>, v: seq<Write>)
      requires Valid() && tb == ApplyAll(db.base, before) && db.history == before + u + v
      ensures db.history == before + (u + v)
      ensures db.table == ApplyAll(tb, u + v)
    {
      Regroup(before, u, v);
      Caught(before, tb, u + v);
    }

    // ---------- token metadata and holders ----------

    method GetTokenMeta(t: Token) returns (m: TokenMeta)
      requires Valid()
      ensures m == MetaOf(db.table, t) && m.token == t && m.count < TWO64
    {
      MetaToken(db.table, t);
      var data := db.Get(MetaKey(t));
      m := if data.Some? && data.value.Meta? then data.value.meta else TokenMeta(t, 0, 0);
    }

    method GetHolderBalance(t: Token, a: Addr) returns (n: int)
      requires Valid()
      ensures n == BalanceOf(db.table, t, a) >= 0
    {
      BalanceNonNegative(db.table, t, a);
      var data := db.Get(HolderKey(t, a));
      n := if data.Some? && data.value.Amount? then data.value.n else 0;
    }

    method PutHolderBalance(t: Token, a: Addr, n: int)
      requires Valid() && n >= 0
      modifies db
      ensures Valid() && db.history == old(db.history) + PutHolder(t, a, n)
      ensures db.table == ApplyAll(old(db.table), PutHolder(t, a, n))
    {
      db.Put(HolderKey(t, a), Amount(n));
      db.Put(HolderAddrKey(a, t), Amount(n));
      Caught(old(db.history), old(db.table), PutHolder(t, a, n));
    }

    method DeleteHolder(t: Token, a: Addr)
      requires Valid()
      modifies db
      ensures Valid() && db.history == old(db.history) + DropHolder(t, a)
      ensures db.table == ApplyAll(old(db.table), DropHolder(t, a))
    {
      db.Delete(HolderKey(t, a));
      db.Delete(HolderAddrKey(a, t));
      Caught(old(db.history), old(db.table), DropHolder(t, a));
    }

    // ---------- ledger operations ----------

    method PutTokenMeta(m: TokenMeta)
      requires Valid() && m.count < TWO64
      modifies db
      ensures Valid() && db.history == old(db.history) + [MetaWrite(m)]
    {
      db.Put(MetaKey(m.token), Meta(m));
    }

    method PutEvent(e: TransferEvent)
      requires Valid()
      modifies db
      ensures Valid() && db.history == old(db.history) + [EventWrite(e)]
      ensures db.table == Apply(old(db.table), EventWrite(e))
    {
      db.Put(EventKey(e.block, e.index), Event(e));
    }

    /** The holder rows, the metadata and the event, in this order, are a recorded operation. */
    lemma {:induction false} Recorded(before: seq<Write>, tb: Table, op: Op, st: Stamp)
      requires Valid() && tb == ApplyAll(db.base, before)
      requires db.history == before + HolderWrites(tb, op) +
        [MetaWrite(NewMeta(tb, op))] + [EventWrite(OpEvent(op, st))]
      ensures db.history == before + OpWrites(tb, op, st)
      ensures db.table == ApplyAll(tb, OpWrites(tb, op, st))
    {
      assert db.history == before + OpWrites(tb, op, st);
      Caught(before, tb, OpWrites(tb, op, st));
    }

    method RecordMint(t: Token, to: Addr, n: nat, st: Stamp)
      requires Valid()
      modifies db
      ensures Valid() && db.history == old(db.history) + OpWrites(old(db.table), Mint(t, to, n), st)
      ensures db.table == ApplyAll(old(db.table), OpWrites(old(db.table), Mint(t, to, n), st))
    {
      ghost var op := Mint(t, to, n);
      var meta := GetTokenMeta(t);
      meta := meta.(supply := meta.supply + n);
      var bal := GetHolderBalance(t, to);
      var wasZero := bal == 0;
      PutHolderBalance(t, to, bal + n);
      if wasZero {
        meta := meta.(count := Inc(meta.count));
      }
      assert meta == NewMeta(old(db.table), op);
      PutTokenMeta(meta);
      PutEvent(TransferEvent(st.tx, st.block, st.index, ZERO_ADDR, to, t, n, "mint"));
      Recorded(old(db.history), old(db.table), op, st);
    }

    method RecordBurn(t: Token, from: Addr, n: nat, st: Stamp)
      requires Valid()
      modifies db
      ensures Valid() && db.history == old(db.history) + OpWrites(old(db.table), Burn(t, from, n), st)
      ensures db.table == ApplyAll(old(db.table), OpWrites(old(db.table), Burn(t, from, n), st))
    {
      ghost var op := Burn(t, from, n);
      var meta := GetTokenMeta(t);
      meta := meta.(supply := meta.supply - n);
      var bal := GetHolderBalance(t, from);
      bal := bal - n;
      if bal <= 0 {
        DeleteHolder(t, from);
        meta := meta.(count := Dec(meta.count));
      } else {
        PutHolderBalance(t, from, bal);
      }
      assert meta == NewMeta(old(db.table), op);
      PutTokenMeta(meta);
      PutEvent(TransferEvent(st.tx, st.block, st.index, from, ZERO_ADDR, t, n, "burn"));
      Recorded(old(db.history), old(db.table), op, st);
    }

    method RecordTransfer(t: Token, from: Addr, to: Addr, n: nat, st: Stamp)
      requires Valid()
      modifies db
      ensures Valid()
      ensures db.history == old(db.history) + OpWrites(old(db.table), Transfer(t, from, to, n), st)
      ensures db.table == ApplyAll(old(db.table), OpWrites(old(db.table), Transfer(t, from, to, n), st))
    {
      ghost var op := Transfer(t, from, to, n);
      var meta := GetTokenMeta(t);
      var fromBal := GetHolderBalance(t, from);
      fromBal := fromBal - n;
      if fromBal <= 0 {
        DeleteHolder(t, from);
        meta := meta.(count := Dec(meta.count));
      } else {
        PutHolderBalance(t, from, fromBal);
      }
      ghost var debit := DebitWrites(old(db.table), t, from, n);
      assert db.history == old(db.history) + debit && db.table == ApplyAll(old(db.table), debit);
      // the credit reads what the debit left, also when both are the same address
      var toBal := GetHolderBalance(t, to);
      var wasZero := toBal == 0;
      PutHolderBalance(t, to, toBal + n);
      assert db.history == old(db.history) + HolderWrites(old(db.table), op);
      if wasZero {
        meta := meta.(count := Inc(meta.count));
      }
      assert meta == NewMeta(old(db.table), op);
      PutTokenMeta(meta);
      PutEvent(TransferEvent(st.tx, st.block, st.index, from, to, t, n, "transfer"));
      Recorded(old(db.history), old(db.table), op, st);
    }

    method RecordEventOnly(e: TransferEvent)
      requires Valid()
      modifies db
      ensures Valid() && db.history == old(db.history) + [EventWrite(e)]
      ensures db.table == Apply(old(db.table), EventWrite(e))
    {
      PutEvent(e);
    }

    // ---------- generic events ----------

    method RecordGenericEvent(e: GenericEvent)
      requires Valid()
      modifies db
      ensures Valid() && db.history == old(db.history) + GenericWrites(e)
      ensures db.table == ApplyAll(old(db.table), GenericWrites(e))
    {
      ghost var was := db.history;
      var key := GenericKey(e.block, e.index);
      db.Put(key, Generic(e));
      // secondary indexes
      if e.token != "" {
        db.Put(GeTokenKey(e.token, e.block, e.index), KeyRef(key.Encode()));
      }
      assert db.history == was + [PrimaryWrite(e)] + TokenEntry(e);
      Regroup(was, [PrimaryWrite(e)], TokenEntry(e));
      if e.addr != "" {
        db.Put(GeAddrKey(e.addr, e.block, e.index), KeyRef(key.Encode()));
      }
      assert db.history == was + ([PrimaryWrite(e)] + TokenEntry(e)) + AddrEntry(e);
      Regroup(was, [PrimaryWrite(e)] + TokenEntry(e), AddrEntry(e));
      Caught(was, old(db.table), GenericWrites(e));
    }

    // ---------- identities ----------

    method GetIdentity(w: Addr) returns (id: Option<Identity>)
      requires Valid()
      ensures id == IdentityOf(db.table, w)
    {
      var data := db.Get(IdentityKey(w));
      id := if data.Some? && data.value.Ident? then Some(data.value.id) else None;
    }

    method RecordIdentity(id: Identity)
      requires Valid()
      modifies db
      ensures Valid() && db.history == old(db.history) + BindWrites(id)
      ensures db.table == ApplyAll(old(db.table), BindWrites(id))
    {
      db.Put(IdentityKey(id.wallet), Ident(id));
      db.Put(CountryKey(id.country, id.wallet), Wallet(id.wallet));
      Caught(old(db.history), old(db.table), BindWrites(id));
    }

    method DeleteIdentity(w: Addr)
      requires Valid()
      modifies db
      ensures Valid() && db.history == old(db.history) + UnbindWrites(old(db.table), w)
      ensures db.table == ApplyAll(old(db.table), UnbindWrites(old(db.table), w))
    {
      var existing := GetIdentity(w);
      if existing.Some? {
        db.Delete(CountryKey(existing.value.country, w));
      }
      db.Delete(IdentityKey(w));
      assert db.history == old(db.history) + UnbindWrites(old(db.table), w);
      Caught(old(db.history), old(db.table), UnbindWrites(old(db.table), w));
    }

    // ---------- freeze records ----------

    method RecordFreeze(f: FreezeState)
      requires Valid()
      modifies db
      ensures Valid() && db.history == old(db.history) + [FreezeWrite(f)]
      ensures db.table == Apply(old(db.table), FreezeWrite(f))
    {
      db.Put(FreezeKey(f.wallet, f.token), Freeze(f));
    }

    method GetFreeze(w: Addr, s: OptToken) returns (f: Option<FreezeState>)
      requires Valid()
      ensures f == FreezeOf(db.table, w, s)
    {
      var data := db.Get(FreezeKey(w, s));
      f := if data.Some? && data.value.Freeze? then Some(data.value.state) else None;
    }

    method UpdateFreezeAmount(w: Addr, t: Token, amount: string)
      requires Valid()
      modifies db
      ensures Valid()
      ensures var ws := [FreezeWrite(FreezeOrNew(old(db.table), w, t).(amount := amount))];
        db.history == old(db.history) + ws && db.table == ApplyAll(old(db.table), ws)
    {
      var state := GetFreeze(w, t);
      var f := if state.Some? then state.value else FreezeState(w, t, false, "", 0);
      f := f.(amount := amount);
      RecordFreeze(f);
      Caught(old(db.history), old(db.table), [FreezeWrite(f)]);
    }

    method UpdateLockupExpiry(w: Addr, t: Token, expiry: nat)
      requires Valid()
      modifies db
      ensures Valid()
      ensures var ws := [FreezeWrite(FreezeOrNew(old(db.table), w, t).(lockup := expiry))];
        db.history == old(db.history) + ws && db.table == ApplyAll(old(db.table), ws)
    {
      var state := GetFreeze(w, t);
      var f := if state.Some? then state.value else FreezeState(w, t, false, "", 0);
      f := f.(lockup := expiry);
      RecordFreeze(f);
      Caught(old(db.history), old(db.table), [FreezeWrite(f)]);
    }

    // ---------- assets ----------

    method RecordAsset(a: AssetConfig)
      requires Valid()
      modifies db
      ensures Valid() && db.history == old(db.history) + [AssetWrite(a)]
      ensures db.table == Apply(old(db.table), AssetWrite(a))
    {
      db.Put(AssetKey(a.token), Asset(a));
    }

    method GetAsset(t: Token) returns (a: AssetConfig)
      requires Valid()
      ensures a == AssetOf(db.table, t)
    {
      var data := db.Get(AssetKey(t));
      a := if data.Some? && data.value.Asset? then data.value.asset
           else AssetConfig(t, "", 0, [], false, 0);
    }

    // ---------- cursor ----------

    method GetCursor() returns (b: nat)
      requires Valid()
      ensures b == CursorOf(db.table) < TWO64
    {
      var data := db.Get(CursorKey);
      if data.Some? { assert Fits(CursorKey, db.table[CursorKey]); }
      b := if data.Some? && data.value.Block? then data.value.block else 0;
    }

    method SetCursor(b: nat)
      requires Valid() && b < TWO64
      modifies db
      ensures Valid() && db.history == old(db.history) + [CursorWrite(b)]
      ensures db.table == Apply(old(db.table), CursorWrite(b))
    {
      db.Put(CursorKey, Block(b));
    }

    // ---------- queries ----------

    /** The holders of a token, sorted by address. */
    method GetHolders(t: Token) returns (r: seq<Holder>)
      requires Valid()
      ensures r == HolderList(HolderRows(db.table, t))
    {
      var prefix := HolderPrefix(t);
      var it := db.NewIterator();
      r := ScanForward(it, prefix, None, (k: Bytes, v: Value) => HolderHit(prefix, k, v));
      HolderScanLists(db.table, db.rows, t);
    }

    /** The holdings of an address, sorted by token id text. */
    method GetPortfolio(a: Addr) returns (r: seq<Holder>)
      requires Valid()
      ensures r == HolderList(PortfolioRows(db.table, a))
    {
      var prefix := HolderAddrPrefix(a);
      var it := db.NewIterator();
      r := ScanForward(it, prefix, None, (k: Bytes, v: Value) => HolderHit(prefix, k, v));
      PortfolioScanLists(db.table, db.rows, a);
    }

    /** The last `limit` transfer events in key order, whatever the other namespaces hold. */
    method GetRecentEvents(limit: int) returns (r: seq<TransferEvent>)
      requires Valid()
      ensures IsHistory(db.table, History(db.rows)) && r == LastN(limit, History(db.rows))
    {
      var it := db.NewIterator();
      r := ScanBack(it, EVENT_PREFIX, limit, (k: Bytes, v: Value) => EventHit(v));
      EventScanLists(db.table, db.rows);
    }

    /** Of the last `5 * limit` events, the first `limit` that belong to a token. */
    method GetTokenEvents(t: Token, limit: int) returns (r: seq<TransferEvent>)
      requires Valid()
      ensures IsHistory(db.table, History(db.rows))
      ensures r == FirstN(limit, TokenWindow(History(db.rows), t, limit))
    {
      var events := GetRecentEvents(limit * 5);
      r := FilterToken(events, t, limit);
    }

    /** The last `limit` generic events of a kind that the chosen index lists. */
    method GetProtocolEvents(limit: int, kind: string, token: OptToken, addr: OptAddr)
      returns (r: seq<GenericEvent>)
      requires Valid()
      ensures IsLog(db.table, RouteLog(db.rows, kind, token, addr), kind, Route(token, addr))
      ensures r == LastN(limit, RouteLog(db.rows, kind, token, addr))
      ensures IsLog(db.table, RouteLog(db.rows, "", token, addr), "", Route(token, addr))
      ensures kind != "" ==> r == LastN(limit, Only(RouteLog(db.rows, "", token, addr), HasKind(kind)))
    {
      RoutesByKind(kind, token, addr);
      var it := db.NewIterator();
      if token != "" {
        r := GetProtocolEventsByIndex(it, ByToken(token), limit, kind);
      } else if addr != "" {
        r := GetProtocolEventsByIndex(it, ByAddr(addr), limit, kind);
      } else {
        r := ScanBack(it, GENERIC_PREFIX, limit, (k: Bytes, v: Value) => PrimaryHit(v, kind));
        PrimaryScan(db.table, db.rows, kind);
      }
    }

    lemma IndexByKind(x: Index, kind: string)
      requires Valid()
      ensures IsLog(db.table, IndexLog(db.rows, x, ""), "", Listed(x))
      ensures kind != "" ==> IndexLog(db.rows, x, kind) == Only(IndexLog(db.rows, x, ""), HasKind(kind))
    {
      IndexScan(db.table, db.rows, x, "");
      IndexScan(db.table, db.rows, x, kind);
      if kind != "" { KindOnly(db.table, IndexLog(db.rows, x, ""), IndexLog(db.rows, x, kind), kind, Listed(x)); }
    }

    lemma RoutesByKind(kind: string, token: OptToken, addr: OptAddr)
      requires Valid()
      ensures var all := RouteLog(db.rows, "", token, addr);
        && IsLog(db.table, all, "", Route(token, addr))
        && (kind != "" ==> RouteLog(db.rows, kind, token, addr) == Only(all, HasKind(kind)))
    {
      if Route(token, addr).Listed? {
        IndexByKind(Route(token, addr).index, kind);
      } else {
        PrimaryScan(db.table, db.rows, "");
        PrimaryScan(db.table, db.rows, kind);
        if kind != "" {
          KindOnly(db.table, PrimaryLog(db.rows, ""), PrimaryLog(db.rows, kind), kind, All);
        }
      }
    }

    method GetProtocolEventsByIndex(it: Iterator, x: Index, limit: int, kind: string)
      returns (r: seq<GenericEvent>)
      requires Valid() && it.Valid() && it.Complete() && it.rows == db.rows
      modifies it
      ensures IsLog(db.table, IndexLog(db.rows, x, kind), kind, Listed(x))
      ensures r == LastN(limit, IndexLog(db.rows, x, kind))
      ensures IsLog(db.table, IndexLog(db.rows, x, ""), "", Listed(x))
      ensures kind != "" ==> r == LastN(limit, Only(IndexLog(db.rows, x, ""), HasKind(kind)))
    {
      IndexByKind(x, kind);
      var rows := db.rows;
      r := ScanBack(it, x.Prefix(), limit, (k: Bytes, v: Value) => IndexedHit(rows, v, kind));
      IndexScan(db.table, rows, x, kind);
    }

    /** The first `limit` identities reached through the index of a country. */
    method GetIdentitiesByCountry(c: nat, limit: int) returns (r: seq<Identity>)
      requires Valid()
      ensures IsCountryList(db.table, c, CountryList(db.rows, c)) && r == FirstN(limit, CountryList(db.rows, c))
    {
      var rows := db.rows;
      var it := db.NewIterator();
      r := ScanForward(it, CountryPrefix(c), Some(limit), (k: Bytes, v: Value) => CountryHit(rows, v));
      CountryScanLists(db.table, rows, c);
    }
  }
}
