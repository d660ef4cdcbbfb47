/** Generic events and their two secondary indexes.

A query may walk the primary rows or one of the indexes. Both are characterised here by the list
of events they stand for: a list of stored events, without omission or repetition, in the key
order of the primaries. The index is then shown to stand for the same list as the filter.
*/
module EventIndex {
  import opened KeyOrder
  import opened Keys
  import opened Rows
  import opened Database
  import opened Scans

  ghost predicate Stored(tb: Table, e: GenericEvent) {
    GenericKey(e.block, e.index) in tb && tb[GenericKey(e.block, e.index)] == Generic(e)
  }

  function KeyOf(e: GenericEvent): Bytes { GenericKey(e.block, e.index).Encode() }

  predicate KindMatches(e: GenericEvent, kind: string) { kind == "" || e.kind == kind }

  /** One of the secondary indexes, narrowed to one token or one address. */
  datatype Index = ByToken(token: Token) | ByAddr(addr: Addr) {
    function Prefix(): Bytes {
      match this case ByToken(t) => GeTokenPrefix(t) case ByAddr(a) => GeAddrPrefix(a)
    }

    /** The entry for a position. */
    function Entry(block: nat, index: nat): Key {
      match this
      case ByToken(t) => GeTokenKey(t, block, index)
      case ByAddr(a) => GeAddrKey(a, block, index)
    }
  }

  /** Which stored events a list is made of: all, those an index has an entry for, or those whose
      own fields meet the request. */
  datatype Source = All | Listed(index: Index) | Asked(token: OptToken, addr: OptAddr)

  ghost predicate Selected(tb: Table, e: GenericEvent, kind: string, src: Source) {
    && Stored(tb, e) && KindMatches(e, kind)
    && match src
       case All => true
       case Listed(x) => x.Entry(e.block, e.index) in tb
       case Asked(token, addr) => (token == "" || e.token == token) && (addr == "" || e.addr == addr)
  }

  /** The selected stored events, all of them, once each, in primary key order. */
  ghost predicate IsLog(tb: Table, all: seq<GenericEvent>, kind: string, src: Source) {
    && (forall e :: e in all <==> Selected(tb, e, kind, src))
    && KeyOrdered(all)
  }

  ghost predicate KeyOrdered(all: seq<GenericEvent>) {
    forall i, j :: 0 <= i < j < |all| ==> Less(KeyOf(all[i]), KeyOf(all[j]))
  }

  /** A list of stored events in key order is determined by its members. */
  lemma LogUnique(tb: Table, s: seq<GenericEvent>, t: seq<GenericEvent>)
    requires KeyOrdered(s) && KeyOrdered(t)
    requires forall e :: e in s <==> e in t
    requires forall e :: e in s ==> Stored(tb, e)
    ensures s == t
  {
    var ks := seq(|s|, i requires 0 <= i < |s| => KeyOf(s[i]));
    var kt := seq(|t|, i requires 0 <= i < |t| => KeyOf(t[i]));
    forall x ensures x in ks <==> x in kt {
      if x in ks {
        var i :| 0 <= i < |ks| && ks[i] == x;
        assert s[i] in t;
        var j :| 0 <= j < |t| && t[j] == s[i];
        assert kt[j] == x;
      }
      if x in kt {
        var j :| 0 <= j < |kt| && kt[j] == x;
        assert t[j] in s;
        var i :| 0 <= i < |s| && s[i] == t[j];
        assert ks[i] == x;
      }
    }
    AscendingUnique(ks, kt);
    forall i | 0 <= i < |s| ensures s[i] == t[i] {
      assert ks[i] == kt[i];
      EncodeInjective(GenericKey(s[i].block, s[i].index), GenericKey(t[i].block, t[i].index));
      assert s[i] in s && t[i] in t;
    }
  }

  // ---------- what the scans select ----------

  /** A primary row of the wanted kind; index entries of the shared prefix do not parse. */
  function PrimaryHit(v: Value, kind: string): Option<GenericEvent> {
    if v.Generic? && KindMatches(v.generic, kind) then Some(v.generic) else None
  }

  /** An index entry whose primary exists and is of the wanted kind. */
  function IndexedHit(rows: map<Bytes, Value>, v: Value, kind: string): Option<GenericEvent> {
    if v.KeyRef? && v.ref in rows then PrimaryHit(rows[v.ref], kind) else None
  }

  /** What the rows of the primaries, and those of an index, yield in key order. */
  ghost function PrimaryLog(rows: map<Bytes, Value>, kind: string): seq<GenericEvent> {
    Hits(rows, PrefixKeys(rows, GENERIC_PREFIX), (k, v) => PrimaryHit(v, kind))
  }

  ghost function IndexLog(rows: map<Bytes, Value>, x: Index, kind: string): seq<GenericEvent> {
    Hits(rows, PrefixKeys(rows, x.Prefix()), (k, v) => IndexedHit(rows, v, kind))
  }

  lemma RowAt(tb: Table, rows: map<Bytes, Value>, s: Bytes) returns (k: Key)
    requires Encoded(tb, rows) && s in rows
    ensures k in tb && k.Encode() == s && rows[s] == tb[k]
  {
    k :| k in tb && k.Encode() == s;
  }

  lemma KeyInRows(tb: Table, rows: map<Bytes, Value>, k: Key)
    requires Encoded(tb, rows)
    ensures k.Encode() in rows <==> k in tb
    ensures k in tb ==> rows[k.Encode()] == tb[k]
  {
    if k.Encode() in rows {
      var l := RowAt(tb, rows, k.Encode());
      EncodeInjective(k, l);
    }
  }

  /** Two keys made of one prefix and a position compare as the primaries of those positions. */
  lemma {:induction false} PositionsCompare(p: Bytes, b: nat, i: nat, c: nat, j: nat)
    ensures Less(p + Position(b, i), p + Position(c, j)) <==>
      Less(GenericKey(b, i).Encode(), GenericKey(c, j).Encode())
  {
    LessAfterPrefix(p, Position(b, i), Position(c, j));
    LessAfterPrefix(GENERIC_PREFIX, Position(b, i), Position(c, j));
  }

  lemma PrimaryMember(tb: Table, rows: map<Bytes, Value>, kind: string, e: GenericEvent)
    requires Encoded(tb, rows) && Typed(tb)
    ensures e in PrimaryLog(rows, kind) <==>
      Selected(tb, e, kind, All)
  {
    var ks, sel := PrefixKeys(rows, GENERIC_PREFIX), (k: Bytes, v: Value) => PrimaryHit(v, kind);
    HitsMembers(rows, ks, sel, e);
    KeyInRows(tb, rows, GenericKey(e.block, e.index));
    if Stored(tb, e) && KindMatches(e, kind) {
      GenericScan(GenericKey(e.block, e.index));
      assert KeyOf(e) in ks && sel(KeyOf(e), rows[KeyOf(e)]) == Some(e);
    }
    if k :| k in ks && sel(k, rows[k]) == Some(e) {
      PrimaryRow(tb, rows, k);
    }
  }

  lemma {:induction false} PrimaryPair(tb: Table, rows: map<Bytes, Value>, kind: string, k: Bytes, l: Bytes)
    requires Encoded(tb, rows) && Typed(tb) && k in rows && l in rows && Less(k, l)
    requires PrimaryHit(rows[k], kind).Some? && PrimaryHit(rows[l], kind).Some?
    ensures Less(KeyOf(PrimaryHit(rows[k], kind).value), KeyOf(PrimaryHit(rows[l], kind).value))
  {
    PrimaryRow(tb, rows, k);
    PrimaryRow(tb, rows, l);
  }

  lemma PrimaryAscending(tb: Table, rows: map<Bytes, Value>, kind: string)
    requires Encoded(tb, rows) && Typed(tb)
    ensures var h := PrimaryLog(rows, kind);
      forall i, j :: 0 <= i < j < |h| ==> Less(KeyOf(h[i]), KeyOf(h[j]))
  {
    var ks, sel := PrefixKeys(rows, GENERIC_PREFIX), (k: Bytes, v: Value) => PrimaryHit(v, kind);
    forall k, l | k in ks && l in ks && Less(k, l)
      ensures sel(k, rows[k]).Some? && sel(l, rows[l]).Some? ==>
        Less(KeyOf(sel(k, rows[k]).value), KeyOf(sel(l, rows[l]).value))
    {
      if sel(k, rows[k]).Some? && sel(l, rows[l]).Some? { PrimaryPair(tb, rows, kind, k, l); }
    }
    HitsAscending(rows, ks, sel, KeyOf);
    assert PrimaryLog(rows, kind) == Hits(rows, ks, sel);
  }

  /** The scan of the shared "ge:" range finds exactly the primaries of the wanted kind. */
  lemma PrimaryScan(tb: Table, rows: map<Bytes, Value>, kind: string)
    requires Encoded(tb, rows) && Typed(tb)
    ensures IsLog(tb, PrimaryLog(rows, kind), kind, All)
  {
    forall e: GenericEvent ensures e in PrimaryLog(rows, kind) <==> Selected(tb, e, kind, All) {
      PrimaryMember(tb, rows, kind, e);
    }
    PrimaryAscending(tb, rows, kind);
  }

  lemma PrimaryRow(tb: Table, rows: map<Bytes, Value>, s: Bytes)
    requires Encoded(tb, rows) && Typed(tb) && s in rows && rows[s].Generic?
    ensures Stored(tb, rows[s].generic) && KeyOf(rows[s].generic) == s
  {
    var k := RowAt(tb, rows, s);
    assert Fits(k, tb[k]);
  }

  lemma EntryAt(tb: Table, rows: map<Bytes, Value>, x: Index, s: Bytes) returns (b: nat, i: nat)
    requires Encoded(tb, rows) && Typed(tb) && s in rows && x.Prefix() <= s
    ensures x.Entry(b, i) in tb && s == x.Entry(b, i).Encode() == x.Prefix() + Position(b, i)
    ensures rows[s] == KeyRef(GenericKey(b, i).Encode())
  {
    var k := RowAt(tb, rows, s);
    match x {
      case ByToken(t) => GeTokenScan(t, k);
      case ByAddr(a) => GeAddrScan(a, k);
    }
    b, i := k.block, k.index;
    assert Fits(k, tb[k]);
  }

  lemma IndexRow(tb: Table, rows: map<Bytes, Value>, x: Index, s: Bytes, kind: string)
    requires Encoded(tb, rows) && Typed(tb)
    requires s in rows && x.Prefix() <= s && IndexedHit(rows, rows[s], kind).Some?
    ensures var e := IndexedHit(rows, rows[s], kind).value;
      && Stored(tb, e) && KindMatches(e, kind) && x.Entry(e.block, e.index) in tb
      && s == x.Prefix() + Position(e.block, e.index)
  {
    var b, i := EntryAt(tb, rows, x, s);
    var e := IndexedHit(rows, rows[s], kind).value;
    PrimaryRow(tb, rows, rows[s].ref);
    EncodeInjective(GenericKey(b, i), GenericKey(e.block, e.index));
  }

  lemma IndexFinds(tb: Table, rows: map<Bytes, Value>, x: Index, kind: string, e: GenericEvent)
    requires Encoded(tb, rows) && Typed(tb)
    requires Stored(tb, e) && KindMatches(e, kind) && x.Entry(e.block, e.index) in tb
    ensures var s := x.Entry(e.block, e.index).Encode();
      s in rows && x.Prefix() <= s && IndexedHit(rows, rows[s], kind) == Some(e)
  {
    var k := x.Entry(e.block, e.index);
    KeyInRows(tb, rows, k);
    KeyInRows(tb, rows, GenericKey(e.block, e.index));
    assert Fits(k, tb[k]);
  }

  lemma {:induction false} IndexPair(tb: Table, rows: map<Bytes, Value>, x: Index, kind: string, k: Bytes,
                                     l: Bytes)
    requires Encoded(tb, rows) && Typed(tb) && Less(k, l)
    requires k in rows && x.Prefix() <= k && l in rows && x.Prefix() <= l
    requires IndexedHit(rows, rows[k], kind).Some? && IndexedHit(rows, rows[l], kind).Some?
    ensures Less(KeyOf(IndexedHit(rows, rows[k], kind).value), KeyOf(IndexedHit(rows, rows[l], kind).value))
  {
    IndexRow(tb, rows, x, k, kind);
    IndexRow(tb, rows, x, l, kind);
    var d, e := IndexedHit(rows, rows[k], kind).value, IndexedHit(rows, rows[l], kind).value;
    PositionsCompare(x.Prefix(), d.block, d.index, e.block, e.index);
  }

  lemma IndexMember(tb: Table, rows: map<Bytes, Value>, x: Index, kind: string, e: GenericEvent)
    requires Encoded(tb, rows) && Typed(tb)
    ensures e in IndexLog(rows, x, kind) <==>
      Selected(tb, e, kind, Listed(x))
  {
    var ks, sel := PrefixKeys(rows, x.Prefix()), (k: Bytes, v: Value) => IndexedHit(rows, v, kind);
    HitsMembers(rows, ks, sel, e);
    if Stored(tb, e) && KindMatches(e, kind) && x.Entry(e.block, e.index) in tb {
      IndexFinds(tb, rows, x, kind, e);
      var s := x.Entry(e.block, e.index).Encode();
      assert s in ks && sel(s, rows[s]) == Some(e);
    }
    if k :| k in ks && sel(k, rows[k]) == Some(e) {
      IndexRow(tb, rows, x, k, kind);
    }
  }

  lemma IndexAscending(tb: Table, rows: map<Bytes, Value>, x: Index, kind: string)
    requires Encoded(tb, rows) && Typed(tb)
    ensures var h := IndexLog(rows, x, kind);
      forall i, j :: 0 <= i < j < |h| ==> Less(KeyOf(h[i]), KeyOf(h[j]))
  {
    var ks, sel := PrefixKeys(rows, x.Prefix()), (k: Bytes, v: Value) => IndexedHit(rows, v, kind);
    forall k, l | k in ks && l in ks && Less(k, l)
      ensures sel(k, rows[k]).Some? && sel(l, rows[l]).Some? ==>
        Less(KeyOf(sel(k, rows[k]).value), KeyOf(sel(l, rows[l]).value))
    {
      if sel(k, rows[k]).Some? && sel(l, rows[l]).Some? { IndexPair(tb, rows, x, kind, k, l); }
    }
    HitsAscending(rows, ks, sel, KeyOf);
    assert IndexLog(rows, x, kind) == Hits(rows, ks, sel);
  }

  /** The scan of an index finds exactly the stored events it has an entry for, in primary order. */
  lemma IndexScan(tb: Table, rows: map<Bytes, Value>, x: Index, kind: string)
    requires Encoded(tb, rows) && Typed(tb)
    ensures IsLog(tb, IndexLog(rows, x, kind), kind, Listed(x))
  {
    forall e: GenericEvent ensures e in IndexLog(rows, x, kind) <==> Selected(tb, e, kind, Listed(x)) {
      IndexMember(tb, rows, x, kind, e);
    }
    IndexAscending(tb, rows, x, kind);
  }

  // ---------- the index against the filter ----------

  /** What a query walks: the token index if a token is given, else the address index if an address
      is given, else the primaries. */
  function Route(token: OptToken, addr: OptAddr): Source {
    if token != "" then Listed(ByToken(token)) else if addr != "" then Listed(ByAddr(addr)) else All
  }

  ghost function RouteLog(rows: map<Bytes, Value>, kind: string, token: OptToken, addr: OptAddr): seq<GenericEvent> {
    match Route(token, addr) case Listed(x) => IndexLog(rows, x, kind) case _ => PrimaryLog(rows, kind)
  }

  /** Each index entry belongs to a stored event with that token or address. */
  ghost predicate IndexSound(tb: Table) {
    && (forall t: Token, b, i :: GeTokenKey(t, b, i) in tb ==>
         GenericKey(b, i) in tb && tb[GenericKey(b, i)].Generic? && tb[GenericKey(b, i)].generic.token == t)
    && (forall a: Addr, b, i :: GeAddrKey(a, b, i) in tb ==>
         GenericKey(b, i) in tb && tb[GenericKey(b, i)].Generic? && tb[GenericKey(b, i)].generic.addr == a)
  }

  /** Each stored event with a token or an address has its index entries. */
  ghost predicate IndexComplete(tb: Table) {
    forall b, i :: GenericKey(b, i) in tb && tb[GenericKey(b, i)].Generic? ==>
      var e := tb[GenericKey(b, i)].generic;
      && (e.token != "" ==> GeTokenKey(e.token, b, i) in tb)
      && (e.addr != "" ==> GeAddrKey(e.addr, b, i) in tb)
  }

  lemma RouteSelects(tb: Table, e: GenericEvent, kind: string, token: OptToken, addr: OptAddr)
    requires IndexSound(tb) && IndexComplete(tb)
    requires token == "" || addr == ""
    ensures Selected(tb, e, kind, Route(token, addr)) <==> Selected(tb, e, kind, Asked(token, addr))
  {
    if Stored(tb, e) { assert tb[GenericKey(e.block, e.index)].generic == e; }
  }

  /** With at most one of token and address given, the index stands for the same list as the filter
      over all stored events. */
  lemma IndexAgrees(tb: Table, all: seq<GenericEvent>, kind: string, token: OptToken, addr: OptAddr)
    requires IndexSound(tb) && IndexComplete(tb)
    requires token == "" || addr == ""
    ensures IsLog(tb, all, kind, Route(token, addr)) <==> IsLog(tb, all, kind, Asked(token, addr))
  {
    forall e: GenericEvent
      ensures Selected(tb, e, kind, Route(token, addr)) <==> Selected(tb, e, kind, Asked(token, addr))
    {
      RouteSelects(tb, e, kind, token, addr);
    }
  }

  // ---------- both filters ----------

  /** With both given the address is not looked at. The uncut list of the query meets the request exactly
      when every stored event of that kind and token also has that address. */
  lemma BothFiltersUncut(tb: Table, all: seq<GenericEvent>, kind: string, token: Token, addr: Addr)
    requires IndexSound(tb) && IndexComplete(tb)
    requires IsLog(tb, all, kind, Route(token, addr))
    ensures IsLog(tb, all, kind, Asked(token, addr)) <==>
      forall e :: Selected(tb, e, kind, Asked(token, "")) ==> e.addr == addr
  {
    forall e: GenericEvent ensures e in all <==> Selected(tb, e, kind, Asked(token, "")) {
      RouteSelects(tb, e, kind, token, "");
    }
    assert forall e :: Selected(tb, e, kind, Asked(token, addr)) <==>
      Selected(tb, e, kind, Asked(token, "")) && e.addr == addr;
  }

  /** The events that pass a test, in order. */
  function Only(all: seq<GenericEvent>, test: GenericEvent -> bool): seq<GenericEvent> {
    if all == [] then []
    else
      var r, e := Only(all[..|all| - 1], test), all[|all| - 1];
      if test(e) then r + [e] else r
  }

  function HasAddr(addr: OptAddr): GenericEvent -> bool { (e: GenericEvent) => e.addr == addr }
  function HasKind(kind: string): GenericEvent -> bool { (e: GenericEvent) => e.kind == kind }

  lemma {:induction false} OnlyConcat(u: seq<GenericEvent>, v: seq<GenericEvent>, test: GenericEvent -> bool)
    ensures Only(u + v, test) == Only(u, test) + Only(v, test)
  {
    if v == [] {
      assert u + v == u;
    } else {
      assert (u + v)[..|u + v| - 1] == u + v[..|v| - 1];
      OnlyConcat(u, v[..|v| - 1], test);
    }
  }

  lemma {:induction false} OnlyMember(all: seq<GenericEvent>, test: GenericEvent -> bool, e: GenericEvent)
    ensures e in Only(all, test) <==> e in all && test(e)
  {
    if all != [] {
      assert all == all[..|all| - 1] + [all[|all| - 1]];
      OnlyMember(all[..|all| - 1], test, e);
    }
  }

  lemma {:induction false} OnlyAll(all: seq<GenericEvent>, test: GenericEvent -> bool)
    requires forall e :: e in all ==> test(e)
    ensures Only(all, test) == all
  {
    if all != [] {
      assert all == all[..|all| - 1] + [all[|all| - 1]];
      OnlyAll(all[..|all| - 1], test);
    }
  }

  lemma {:induction false} OnlyOrdered(all: seq<GenericEvent>, test: GenericEvent -> bool)
    requires KeyOrdered(all)
    ensures KeyOrdered(Only(all, test))
  {
    if all != [] {
      var init, e := all[..|all| - 1], all[|all| - 1];
      var r := Only(init, test);
      OnlyOrdered(init, test);
      forall i | 0 <= i < |r| ensures Less(KeyOf(r[i]), KeyOf(e)) {
        assert r[i] in r;
        OnlyMember(init, test, r[i]);
        var j :| 0 <= j < |init| && init[j] == r[i];
        assert all[j] == r[i];
      }
    }
  }

  /** The last `limit` of a list are the last `limit` that pass exactly when they pass. */
  lemma {:induction false} LastOnly(all: seq<GenericEvent>, test: GenericEvent -> bool, limit: int)
    ensures LastN(limit, all) == LastN(limit, Only(all, test)) <==>
      forall e :: e in LastN(limit, all) ==> test(e)
  {
    var tail := LastN(limit, all);
    var head := all[..|all| - |tail|];
    assert all == head + tail;
    OnlyConcat(head, tail, test);
    if forall e :: e in tail ==> test(e) {
      OnlyAll(tail, test);
    } else {
      var e :| e in tail && !test(e);
      OnlyMember(all, test, e);
      LastMember(Only(all, test), limit, e);
    }
  }

  lemma LastMember(all: seq<GenericEvent>, limit: int, e: GenericEvent)
    ensures e in LastN(limit, all) ==> e in all
  {
  }

  /** With both given, the answer of the query is the answer to the request exactly when the events it
      returns are all at that address; older events of the token do not matter. */
  lemma BothFiltersExact(tb: Table, all: seq<GenericEvent>, asked: seq<GenericEvent>,
                         kind: string, token: Token, addr: Addr, limit: int)
    requires IndexSound(tb) && IndexComplete(tb)
    requires IsLog(tb, all, kind, Route(token, addr)) && IsLog(tb, asked, kind, Asked(token, addr))
    ensures LastN(limit, all) == LastN(limit, asked) <==>
      forall e :: e in LastN(limit, all) ==> e.addr == addr
  {
    var test := HasAddr(addr);
    forall e: GenericEvent ensures e in Only(all, test) <==> e in asked {
      OnlyMember(all, test, e);
      RouteSelects(tb, e, kind, token, "");
    }
    OnlyOrdered(all, test);
    LogUnique(tb, Only(all, test), asked);
    LastOnly(all, test, limit);
  }

  // ---------- the kind ----------

  /** What the kind of a query selects: all events when it is empty, else those of exactly that kind. */
  lemma KindSelects(tb: Table, e: GenericEvent, kind: string, src: Source)
    ensures Selected(tb, e, "", All) <==> Stored(tb, e)
    ensures kind != "" ==> (Selected(tb, e, kind, All) <==> Stored(tb, e) && e.kind == kind)
    ensures kind != "" ==> (Selected(tb, e, kind, src) <==> Selected(tb, e, "", src) && e.kind == kind)
  {
  }

  /** A list for a kind is the list for no kind, less the events of other kinds. */
  lemma {:induction false} KindOnly(tb: Table, all: seq<GenericEvent>, some: seq<GenericEvent>, kind: string,
                                    src: Source)
    requires kind != "" && IsLog(tb, all, "", src) && IsLog(tb, some, kind, src)
    ensures some == Only(all, HasKind(kind))
  {
    var test := HasKind(kind);
    forall e: GenericEvent ensures e in some <==> e in Only(all, test) {
      KindSelects(tb, e, kind, src);
      OnlyMember(all, test, e);
    }
    OnlyOrdered(all, test);
    LogUnique(tb, some, Only(all, test));
  }
}
