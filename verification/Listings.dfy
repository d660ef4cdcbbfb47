/** What the forward scans and the event scan return, read off the table.

Holders, portfolios, transfer events and identities by country: each listing is characterised
without mentioning keys or scan order, then shown to be what the prefix scan yields.
*/
module Listings {
  import opened KeyOrder
  import opened Keys
  import opened Rows
  import opened Database
  import opened Scans
  import opened Plans
  import Numerals
  import opened Accounts
  import opened EventIndex

  /** A holder of a token, or a holding of an address. */
  datatype Holder = Holder(address: string, balance: int)

  ghost function Entries(names: seq<string>, m: map<string, int>): seq<Holder>
    requires forall a :: a in names ==> a in m
  {
    seq(|names|, i requires 0 <= i < |names| => assert names[i] in names; Holder(names[i], m[names[i]]))
  }

  /** The entries of a balance table, sorted by address (or token). */
  ghost function HolderList(m: map<string, int>): seq<Holder> { Entries(Sorted(m.Keys), m) }

  /** The part of a key after the scanned prefix, with the balance stored there. */
  function HolderHit(prefix: Bytes, k: Bytes, v: Value): Option<Holder> {
    if prefix <= k && v.Amount? then Some(Holder(k[|prefix|..], v.n)) else None
  }

  /** The rows with the prefix are the entries of a balance table under `prefix + name`. */
  ghost predicate Under(rows: map<Bytes, Value>, prefix: Bytes, m: map<string, int>) {
    && (forall k :: k in rows && prefix <= k ==>
         k[|prefix|..] in m && rows[k] == Amount(m[k[|prefix|..]]))
    && (forall a :: a in m ==> prefix + a in rows)
  }

  function Prefixed(prefix: Bytes, names: seq<string>): (ks: seq<Bytes>)
    ensures |ks| == |names|
  {
    seq(|names|, i requires 0 <= i < |names| => prefix + names[i])
  }

  lemma PrefixedAscending(prefix: Bytes, names: seq<string>)
    requires Ascending(names)
    ensures Ascending(Prefixed(prefix, names))
  {
    var ks := Prefixed(prefix, names);
    forall i, j | 0 <= i < j < |ks| ensures Less(ks[i], ks[j]) {
      assert Less(names[i], names[j]);
      LessAfterPrefix(prefix, names[i], names[j]);
    }
  }

  lemma PrefixedMember(prefix: Bytes, names: seq<string>, k: Bytes)
    ensures k in Prefixed(prefix, names) <==> prefix <= k && k[|prefix|..] in names
  {
    var ks := Prefixed(prefix, names);
    if k in ks {
      var i :| 0 <= i < |ks| && ks[i] == k;
      assert k[|prefix|..] == names[i];
    }
    if prefix <= k && k[|prefix|..] in names {
      var i :| 0 <= i < |names| && names[i] == k[|prefix|..];
      assert ks[i] == k;
    }
  }

  /** The scanned keys are the table's names in order, each behind the prefix. */
  lemma NamesSorted(rows: map<Bytes, Value>, prefix: Bytes, m: map<string, int>)
    requires Under(rows, prefix, m)
    ensures PrefixKeys(rows, prefix) == Prefixed(prefix, Sorted(m.Keys))
  {
    var ks := Prefixed(prefix, Sorted(m.Keys));
    PrefixedAscending(prefix, Sorted(m.Keys));
    forall k ensures k in ks <==> k in PrefixKeys(rows, prefix) {
      PrefixedMember(prefix, Sorted(m.Keys), k);
      if prefix <= k { assert k == prefix + k[|prefix|..]; }
    }
    AscendingUnique(ks, PrefixKeys(rows, prefix));
  }

  lemma HitsEntries(rows: map<Bytes, Value>, prefix: Bytes, m: map<string, int>,
                    ks: seq<Bytes>, names: seq<string>)
    requires |ks| == |names| && (forall a :: a in names ==> a in m)
    requires forall k :: k in ks ==> k in rows
    requires forall i :: 0 <= i < |ks| ==>
      ks[i] == prefix + names[i] && rows[ks[i]] == Amount(m[names[i]])
    ensures Hits(rows, ks, (k, v) => HolderHit(prefix, k, v)) == Entries(names, m)
  {
    var sel := (k: Bytes, v: Value) => HolderHit(prefix, k, v);
    forall i | 0 <= i < |ks| ensures sel(ks[i], rows[ks[i]]) == Some(Entries(names, m)[i]) {
      assert ks[i][|prefix|..] == names[i];
    }
    HitsAll(rows, ks, sel);
  }

  /** A scan of such rows lists that table. */
  lemma {:induction false} ScanLists(rows: map<Bytes, Value>, prefix: Bytes, m: map<string, int>)
    requires Under(rows, prefix, m)
    ensures Hits(rows, PrefixKeys(rows, prefix), (k, v) => HolderHit(prefix, k, v)) == HolderList(m)
  {
    var ks, ns := PrefixKeys(rows, prefix), Sorted(m.Keys);
    NamesSorted(rows, prefix, m);
    forall i | 0 <= i < |ks| ensures ks[i] == prefix + ns[i] && rows[ks[i]] == Amount(m[ns[i]]) {
      assert ks[i] in ks && ks[i] == prefix + ns[i] && ks[i][|prefix|..] == ns[i];
    }
    HitsEntries(rows, prefix, m, ks, ns);
  }

  lemma {:induction false} HolderScanLists(tb: Table, rows: map<Bytes, Value>, t: Token)
    requires Encoded(tb, rows) && Typed(tb)
    ensures Hits(rows, PrefixKeys(rows, HolderPrefix(t)), (k, v) => HolderHit(HolderPrefix(t), k, v))
         == HolderList(HolderRows(tb, t))
  {
    var p, m := HolderPrefix(t), HolderRows(tb, t);
    forall k | k in rows && p <= k ensures k[|p|..] in m && rows[k] == Amount(m[k[|p|..]]) {
      var key := RowAt(tb, rows, k);
      HolderScan(t, key);
      assert k == p + key.addr;
      HolderRowsAt(tb, t, key.addr);
    }
    forall a: string | a in m ensures p + a in rows {
      HolderRowsAt(tb, t, a);
      assert (HolderKey(t, a)).Encode() == p + a;
    }
    ScanLists(rows, p, m);
  }

  lemma {:induction false} PortfolioScanLists(tb: Table, rows: map<Bytes, Value>, a: Addr)
    requires Encoded(tb, rows) && Typed(tb)
    ensures Hits(rows, PrefixKeys(rows, HolderAddrPrefix(a)), (k, v) => HolderHit(HolderAddrPrefix(a), k, v))
         == HolderList(PortfolioRows(tb, a))
  {
    var p, m := HolderAddrPrefix(a), PortfolioRows(tb, a);
    forall k | k in rows && p <= k ensures k[|p|..] in m && rows[k] == Amount(m[k[|p|..]]) {
      var key := RowAt(tb, rows, k);
      PortfolioScan(a, key);
      assert k == p + key.token;
      PortfolioRowsAt(tb, a, key.token);
    }
    forall t: string | t in m ensures p + t in rows {
      PortfolioRowsAt(tb, a, t);
      assert (HolderAddrKey(a, t)).Encode() == p + t;
    }
    ScanLists(rows, p, m);
  }

  lemma ListMembers(m: map<string, int>, a: string, n: int)
    ensures Holder(a, n) in HolderList(m) <==> a in m && m[a] == n
  {
    if a in m && m[a] == n {
      assert a in Sorted(m.Keys);
      var i :| 0 <= i < |Sorted(m.Keys)| && Sorted(m.Keys)[i] == a;
      assert HolderList(m)[i] == Holder(a, n);
    }
    if Holder(a, n) in HolderList(m) {
      var i :| 0 <= i < |HolderList(m)| && HolderList(m)[i] == Holder(a, n);
      assert Sorted(m.Keys)[i] in Sorted(m.Keys);
    }
  }

  /** While the holder tables are transposed, an address is listed as a holder of a token with a
      balance exactly when the token is listed in its portfolio with that balance. */
  lemma HoldersAndPortfoliosAgree(tb: Table, t: Token, a: Addr, n: int)
    requires Typed(tb) && Transposed(tb)
    ensures Holder(a, n) in HolderList(HolderRows(tb, t)) <==>
            Holder(t, n) in HolderList(PortfolioRows(tb, a))
  {
    ListMembers(HolderRows(tb, t), a, n);
    ListMembers(PortfolioRows(tb, a), t, n);
    HolderRowsAt(tb, t, a);
    PortfolioRowsAt(tb, a, t);
    assert TransposedAt(tb, t, a);
  }

  // ---------- transfer events ----------

  function EventBytes(e: TransferEvent): Bytes { EventKey(e.block, e.index).Encode() }

  ghost predicate Happened(tb: Table, e: TransferEvent) {
    EventKey(e.block, e.index) in tb && tb[EventKey(e.block, e.index)] == Event(e)
  }

  /** The stored transfer events, all of them, once each, in key order. */
  ghost predicate IsHistory(tb: Table, all: seq<TransferEvent>) {
    && (forall e :: e in all <==> Happened(tb, e))
    && (forall i, j :: 0 <= i < j < |all| ==> Less(EventBytes(all[i]), EventBytes(all[j])))
  }

  function EventHit(v: Value): Option<TransferEvent> { if v.Event? then Some(v.event) else None }

  /** What the transfer event rows yield in key order. */
  ghost function History(rows: map<Bytes, Value>): seq<TransferEvent> {
    Hits(rows, PrefixKeys(rows, EVENT_PREFIX), (k, v) => EventHit(v))
  }

  lemma EventRow(tb: Table, rows: map<Bytes, Value>, s: Bytes)
    requires Encoded(tb, rows) && Typed(tb) && s in rows && rows[s].Event?
    ensures var e := rows[s].event;
      s == EventBytes(e) && Happened(tb, e)
  {
    var k := RowAt(tb, rows, s);
    assert Fits(k, tb[k]);
  }

  lemma EventMember(tb: Table, rows: map<Bytes, Value>, e: TransferEvent)
    requires Encoded(tb, rows) && Typed(tb)
    ensures e in History(rows) <==> Happened(tb, e)
  {
    var ks, sel := PrefixKeys(rows, EVENT_PREFIX), (k: Bytes, v: Value) => EventHit(v);
    HitsMembers(rows, ks, sel, e);
    if Happened(tb, e) {
      KeyInRows(tb, rows, EventKey(e.block, e.index));
      EventScan(EventKey(e.block, e.index));
      assert EventBytes(e) in ks && sel(EventBytes(e), rows[EventBytes(e)]) == Some(e);
    }
    if k :| k in ks && sel(k, rows[k]) == Some(e) {
      EventRow(tb, rows, k);
    }
  }

  lemma EventAscending(tb: Table, rows: map<Bytes, Value>)
    requires Encoded(tb, rows) && Typed(tb)
    ensures var h := History(rows);
      forall i, j :: 0 <= i < j < |h| ==> Less(EventBytes(h[i]), EventBytes(h[j]))
  {
    var ks, sel := PrefixKeys(rows, EVENT_PREFIX), (k: Bytes, v: Value) => EventHit(v);
    forall k, l | k in ks && l in ks && Less(k, l)
      ensures sel(k, rows[k]).Some? && sel(l, rows[l]).Some? ==>
        Less(EventBytes(sel(k, rows[k]).value), EventBytes(sel(l, rows[l]).value))
    {
      if sel(k, rows[k]).Some? && sel(l, rows[l]).Some? {
        EventRow(tb, rows, k);
        EventRow(tb, rows, l);
      }
    }
    HitsAscending(rows, ks, sel, EventBytes);
    assert History(rows) == Hits(rows, ks, sel);
  }

  lemma EventScanLists(tb: Table, rows: map<Bytes, Value>)
    requires Encoded(tb, rows) && Typed(tb)
    ensures IsHistory(tb, History(rows))
  {
    forall e: TransferEvent ensures e in History(rows) <==> Happened(tb, e) {
      EventMember(tb, rows, e);
    }
    EventAscending(tb, rows);
  }

  /** Within the padded widths, the listing is chronological. */
  lemma HistoryChronological(tb: Table, all: seq<TransferEvent>, i: nat, j: nat)
    requires IsHistory(tb, all) && i < j < |all|
    requires forall e :: e in all ==> e.block < Numerals.Pow10(BLOCK_WIDTH) && e.index < Numerals.Pow10(INDEX_WIDTH)
    ensures Earlier(all[i].block, all[i].index, all[j].block, all[j].index)
  {
    assert all[i] in all && all[j] in all;
    EventKeyOrder(all[i].block, all[i].index, all[j].block, all[j].index);
  }

  // ---------- transfer events of a token ----------

  function OfToken(all: seq<TransferEvent>, t: Token): seq<TransferEvent> {
    if all == [] then []
    else
      var r, e := OfToken(all[..|all| - 1], t), all[|all| - 1];
      if e.token == t then r + [e] else r
  }

  lemma {:induction false} OfTokenConcat(u: seq<TransferEvent>, v: seq<TransferEvent>, t: Token)
    ensures OfToken(u + v, t) == OfToken(u, t) + OfToken(v, t)
  {
    if v == [] {
      assert u + v == u;
    } else {
      assert (u + v)[..|u + v| - 1] == u + v[..|v| - 1];
      OfTokenConcat(u, v[..|v| - 1], t);
    }
  }

  lemma {:induction false} OfTokenMember(all: seq<TransferEvent>, t: Token, e: TransferEvent)
    ensures e in OfToken(all, t) <==> e in all && e.token == t
  {
    if all != [] {
      assert all == all[..|all| - 1] + [all[|all| - 1]];
      OfTokenMember(all[..|all| - 1], t, e);
    }
  }

  ghost predicate NoRepeats(all: seq<TransferEvent>) {
    forall i, j :: 0 <= i < j < |all| ==> all[i] != all[j]
  }

  lemma {:induction false} OfTokenNoRepeats(all: seq<TransferEvent>, t: Token)
    requires NoRepeats(all)
    ensures NoRepeats(OfToken(all, t))
  {
    if all != [] {
      var init, e := all[..|all| - 1], all[|all| - 1];
      OfTokenNoRepeats(init, t);
      OfTokenMember(init, t, e);
      assert e !in init;
    }
  }

  lemma HistoryNoRepeats(tb: Table, all: seq<TransferEvent>)
    requires IsHistory(tb, all)
    ensures NoRepeats(all)
  {
    forall i, j | 0 <= i < j < |all| ensures all[i] != all[j] {
      assert Less(EventBytes(all[i]), EventBytes(all[j]));
      LessAsymmetric(EventBytes(all[i]), EventBytes(all[j]));
    }
  }

  /** The first `limit` of the events at the end of a list are the last `limit` of the list exactly when
      there are no more of them than that, and no fewer unless the list is that short. */
  lemma FirstOfSuffix(f: seq<TransferEvent>, w: seq<TransferEvent>, head: seq<TransferEvent>, limit: int)
    requires NoRepeats(f) && f == head + w && limit > 0
    ensures FirstN(limit, w) == LastN(limit, f) <==> |w| == if limit < |f| then limit else |f|
  {
    if |w| > limit {
      assert FirstN(limit, w)[0] == f[|head|];
      assert LastN(limit, f)[0] == f[|f| - limit];
    } else if |w| == limit || |w| == |f| {
      assert FirstN(limit, w) == w;
      assert LastN(limit, f) == w;
    }
  }

  lemma {:induction false} OfTokenNext(all: seq<TransferEvent>, t: Token, i: nat)
    requires i < |all|
    ensures OfToken(all[..i + 1], t) == OfToken(all[..i], t) + if all[i].token == t then [all[i]] else []
    ensures OfToken(all[..i + 1], t) <= OfToken(all, t)
  {
    assert all[..i + 1][..i] == all[..i];
    assert all == all[..i + 1] + all[i + 1..];
    OfTokenConcat(all[..i + 1], all[i + 1..], t);
  }

  /** Collects a token's events until there are `limit` of them. */
  method FilterToken(events: seq<TransferEvent>, t: Token, limit: int) returns (r: seq<TransferEvent>)
    requires limit > 0 || events == []
    ensures r == FirstN(limit, OfToken(events, t))
  {
    r := [];
    for i := 0 to |events|
      invariant r == OfToken(events[..i], t) && (r == [] || |r| < limit)
    {
      OfTokenNext(events, t, i);
      if events[i].token == t {
        r := r + [events[i]];
        if |r| >= limit {
          return;
        }
      }
    }
    assert events[..|events|] == events;
  }

  /** The token's events among the last `5 * limit` of all, no more than `limit` of them. */
  function TokenWindow(all: seq<TransferEvent>, t: Token, limit: int): seq<TransferEvent> {
    OfToken(LastN(limit * 5, all), t)
  }

  /** Cutting that window at its first `limit` events gives the token's last `limit` events exactly when
      the window holds just as many: with more, the most recent are dropped; with fewer, older ones
      outside the window are missed. */
  lemma {:induction false} TokenEventsExactly(tb: Table, all: seq<TransferEvent>, t: Token, limit: int)
    requires IsHistory(tb, all) && limit > 0
    ensures FirstN(limit, TokenWindow(all, t, limit)) == LastN(limit, OfToken(all, t)) <==>
      |TokenWindow(all, t, limit)| == if limit < |OfToken(all, t)| then limit else |OfToken(all, t)|
  {
    var window := LastN(limit * 5, all);
    var head := all[..|all| - |window|];
    assert all == head + window;
    OfTokenConcat(head, window, t);
    HistoryNoRepeats(tb, all);
    OfTokenNoRepeats(all, t);
    FirstOfSuffix(OfToken(all, t), OfToken(window, t), OfToken(head, t), limit);
  }

  /** The window reaches back over exactly five events for each one asked for. */
  lemma WindowReach(tb: Table, all: seq<TransferEvent>, i: nat, limit: nat)
    requires IsHistory(tb, all) && i < |all|
    ensures all[i] in TokenWindow(all, all[i].token, limit) <==> |all| - i <= 5 * limit
  {
    var window := LastN(limit * 5, all);
    HistoryNoRepeats(tb, all);
    OfTokenMember(window, all[i].token, all[i]);
    InTail(all, |all| - |window|, i);
  }

  lemma InTail(all: seq<TransferEvent>, lo: nat, i: nat)
    requires NoRepeats(all) && i < |all| && lo <= |all|
    ensures all[i] in all[lo..] <==> lo <= i
  {
    if lo <= i { assert all[lo..][i - lo] == all[i]; }
    if all[i] in all[lo..] {
      var j :| 0 <= j < |all| - lo && all[lo..][j] == all[i];
      assert all[lo + j] == all[i];
    }
  }

  /** Two events of one token, asked for one: the older comes back. */
  lemma {:induction false} TokenEventsFail(t: Token, a: Addr)
    ensures var e, f := TransferEvent(0, 1, 0, a, a, t, 1, "mint"), TransferEvent(0, 1, 1, a, a, t, 1, "mint");
      && IsHistory(map[EventKey(1, 0) := Event(e), EventKey(1, 1) := Event(f)], [e, f])
      && FirstN(1, TokenWindow([e, f], t, 1)) == [e] && LastN(1, OfToken([e, f], t)) == [f]
  {
    var e, f := TransferEvent(0, 1, 0, a, a, t, 1, "mint"), TransferEvent(0, 1, 1, a, a, t, 1, "mint");
    assert Numerals.Pow10(BLOCK_WIDTH) > 1 && Numerals.Pow10(INDEX_WIDTH) > 1;
    EventKeyOrder(1, 0, 1, 1);
    assert [e, f][..1] == [e] && [e][..0] == [];
    assert OfToken([e], t) == [e];
  }

  // ---------- identities by country ----------

  function WalletOf(id: Identity): Bytes { id.wallet }

  /** Bound, and listed under the country. */
  ghost predicate ListedUnder(tb: Table, c: nat, id: Identity) {
    CountryKey(c, id.wallet) in tb && IdentityOf(tb, id.wallet) == Some(id)
  }

  /** The identities reached through the country index, ordered by wallet. */
  ghost predicate IsCountryList(tb: Table, c: nat, all: seq<Identity>) {
    && (forall id :: id in all <==> ListedUnder(tb, c, id))
    && (forall i, j :: 0 <= i < j < |all| ==> Less(WalletOf(all[i]), WalletOf(all[j])))
  }

  /** The identity of the wallet an index entry names, if it is still bound. */
  function CountryHit(rows: map<Bytes, Value>, v: Value): Option<Identity> {
    if v.Wallet? then
      var k := IdentityKey(v.wallet).Encode();
      if k in rows && rows[k].Ident? then Some(rows[k].id) else None
    else None
  }

  /** What the index rows of a country yield in key order. */
  ghost function CountryList(rows: map<Bytes, Value>, c: nat): seq<Identity> {
    Hits(rows, PrefixKeys(rows, CountryPrefix(c)), (k, v) => CountryHit(rows, v))
  }

  lemma CountryRow(tb: Table, rows: map<Bytes, Value>, c: nat, s: Bytes)
    requires Encoded(tb, rows) && Typed(tb) && s in rows && CountryPrefix(c) <= s
    requires CountryHit(rows, rows[s]).Some?
    ensures var id := CountryHit(rows, rows[s]).value;
      && s == CountryPrefix(c) + id.wallet
      && CountryKey(c, id.wallet) in tb && IdentityOf(tb, id.wallet) == Some(id)
  {
    var k := RowAt(tb, rows, s);
    CountryScan(c, k);
    assert Fits(k, tb[k]);
    KeyInRows(tb, rows, IdentityKey(k.wallet));
    assert Fits(IdentityKey(k.wallet), tb[IdentityKey(k.wallet)]);
  }

  lemma CountryFinds(tb: Table, rows: map<Bytes, Value>, c: nat, id: Identity)
    requires Encoded(tb, rows) && Typed(tb)
    requires CountryKey(c, id.wallet) in tb && IdentityOf(tb, id.wallet) == Some(id)
    ensures var s := CountryKey(c, id.wallet).Encode();
      s in rows && CountryPrefix(c) <= s && CountryHit(rows, rows[s]) == Some(id)
  {
    KeyInRows(tb, rows, CountryKey(c, id.wallet));
    KeyInRows(tb, rows, IdentityKey(id.wallet));
    assert Fits(CountryKey(c, id.wallet), tb[CountryKey(c, id.wallet)]);
  }

  lemma {:induction false} CountryPair(tb: Table, rows: map<Bytes, Value>, c: nat, k: Bytes, l: Bytes)
    requires Encoded(tb, rows) && Typed(tb) && k in rows && l in rows && Less(k, l)
    requires CountryPrefix(c) <= k && CountryPrefix(c) <= l
    requires CountryHit(rows, rows[k]).Some? && CountryHit(rows, rows[l]).Some?
    ensures Less(CountryHit(rows, rows[k]).value.wallet, CountryHit(rows, rows[l]).value.wallet)
  {
    CountryRow(tb, rows, c, k);
    CountryRow(tb, rows, c, l);
    LessAfterPrefix(CountryPrefix(c), CountryHit(rows, rows[k]).value.wallet,
                    CountryHit(rows, rows[l]).value.wallet);
  }

  lemma CountryMember(tb: Table, rows: map<Bytes, Value>, c: nat, id: Identity)
    requires Encoded(tb, rows) && Typed(tb)
    ensures id in CountryList(rows, c) <==> ListedUnder(tb, c, id)
  {
    var ks, sel := PrefixKeys(rows, CountryPrefix(c)), (k: Bytes, v: Value) => CountryHit(rows, v);
    HitsMembers(rows, ks, sel, id);
    if CountryKey(c, id.wallet) in tb && IdentityOf(tb, id.wallet) == Some(id) {
      CountryFinds(tb, rows, c, id);
      var s := CountryKey(c, id.wallet).Encode();
      assert s in ks && sel(s, rows[s]) == Some(id);
    }
    if k :| k in ks && sel(k, rows[k]) == Some(id) {
      CountryRow(tb, rows, c, k);
    }
  }

  lemma CountryAscending(tb: Table, rows: map<Bytes, Value>, c: nat)
    requires Encoded(tb, rows) && Typed(tb)
    ensures var h := CountryList(rows, c);
      forall i, j :: 0 <= i < j < |h| ==> Less(WalletOf(h[i]), WalletOf(h[j]))
  {
    var ks, sel := PrefixKeys(rows, CountryPrefix(c)), (k: Bytes, v: Value) => CountryHit(rows, v);
    forall k, l | k in ks && l in ks && Less(k, l)
      ensures sel(k, rows[k]).Some? && sel(l, rows[l]).Some? ==>
        Less(WalletOf(sel(k, rows[k]).value), WalletOf(sel(l, rows[l]).value))
    {
      if sel(k, rows[k]).Some? && sel(l, rows[l]).Some? { CountryPair(tb, rows, c, k, l); }
    }
    HitsAscending(rows, ks, sel, WalletOf);
    assert CountryList(rows, c) == Hits(rows, ks, sel);
  }

  lemma CountryScanLists(tb: Table, rows: map<Bytes, Value>, c: nat)
    requires Encoded(tb, rows) && Typed(tb)
    ensures IsCountryList(tb, c, CountryList(rows, c))
  {
    forall id: Identity ensures id in CountryList(rows, c) <==> ListedUnder(tb, c, id) {
      CountryMember(tb, rows, c, id);
    }
    CountryAscending(tb, rows, c);
  }
}
