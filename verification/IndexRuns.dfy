/** The generic-event indexes over runs, stops and replays.

The primary row is written before its index entries and is never deleted, and what is written
for a log depends on the log alone. Hence an index entry points at a matching primary at every
moment, even between two writes and after any number of replays; and without a stop no entry is
missing.
*/
module IndexRuns {
  import opened Keys
  import opened Rows
  import opened Plans
  import opened Scans
  import opened EventIndex
  import opened Logs
  import opened Replay

  /** No two logs of the chain share block and log index. */
  ghost predicate Distinct(chain: set<Log>) {
    forall l, k :: l in chain && k in chain && l.block == k.block && l.index == k.index ==> l == k
  }

  predicate EventRow(k: Key) { k.GenericKey? || k.GeTokenKey? || k.GeAddrKey? }

  /** The event of a log stands at its position. */
  predicate Placed(tb: Table, l: Log, b: nat, i: nat) {
    && l.block == b && l.index == i && GenericOf(l).Some?
    && GenericKey(b, i) in tb && tb[GenericKey(b, i)] == Generic(GenericOf(l).value)
  }

  /** A row of the generic events, primary or index entry, stems from a log of the chain. */
  ghost predicate Stems(chain: set<Log>, tb: Table, k: Key) {
    match k
    case GenericKey(b, i) => exists l :: l in chain && Placed(tb, l, b, i)
    case GeTokenKey(t, b, i) =>
      exists l :: l in chain && Placed(tb, l, b, i) && GenericOf(l).value.token == t
    case GeAddrKey(a, b, i) =>
      exists l :: l in chain && Placed(tb, l, b, i) && GenericOf(l).value.addr == a
    case _ => true
  }

  ghost predicate Sound(chain: set<Log>, tb: Table) {
    forall k :: k in tb ==> Stems(chain, tb, k)
  }

  lemma SoundIndex(chain: set<Log>, tb: Table)
    requires Sound(chain, tb)
    ensures IndexSound(tb)
  {
    forall t: Token, b, i | GeTokenKey(t, b, i) in tb
      ensures GenericKey(b, i) in tb && tb[GenericKey(b, i)].Generic? && tb[GenericKey(b, i)].generic.token == t
    {
      assert Stems(chain, tb, GeTokenKey(t, b, i));
    }
    forall a: Addr, b, i | GeAddrKey(a, b, i) in tb
      ensures GenericKey(b, i) in tb && tb[GenericKey(b, i)].Generic? && tb[GenericKey(b, i)].generic.addr == a
    {
      assert Stems(chain, tb, GeAddrKey(a, b, i));
    }
  }

  /** A write that keeps the rows sound: outside the events, or an event row of `l` in its turn. */
  ghost predicate Proper(tb: Table, w: Write, l: Log) {
    EventRow(w.key) ==>
      && w.Put? && GenericOf(l).Some?
      && var e := GenericOf(l).value;
         || w == PrimaryWrite(e)
         || (Placed(tb, l, l.block, l.index) &&
             ((w.key.GeTokenKey? && w.key == GeTokenKey(w.key.token, l.block, l.index) && e.token == w.key.token) ||
              (w.key.GeAddrKey? && w.key == GeAddrKey(w.key.addr, l.block, l.index) && e.addr == w.key.addr)))
  }

  lemma StaysPlaced(chain: set<Log>, tb: Table, w: Write, l: Log, k: Log, b: nat, i: nat)
    requires Distinct(chain) && l in chain && k in chain && Proper(tb, w, l) && Placed(tb, k, b, i)
    ensures Placed(Apply(tb, w), k, b, i)
  {
  }

  lemma ProperKeepsSound(chain: set<Log>, tb: Table, w: Write, l: Log)
    requires Distinct(chain) && l in chain && Sound(chain, tb) && Proper(tb, w, l)
    ensures Sound(chain, Apply(tb, w))
  {
    var after := Apply(tb, w);
    forall k | k in after ensures Stems(chain, after, k) {
      if EventRow(k) {
        if k == w.key {
          if k != GenericKey(l.block, l.index) { StaysPlaced(chain, tb, w, l, l, l.block, l.index); }
          assert Placed(after, l, l.block, l.index);
        } else {
          assert Stems(chain, tb, k);
          var o :| o in chain && Placed(tb, o, k.block, k.index) &&
            (k.GeTokenKey? ==> GenericOf(o).value.token == k.token) &&
            (k.GeAddrKey? ==> GenericOf(o).value.addr == k.addr);
          StaysPlaced(chain, tb, w, l, o, k.block, k.index);
        }
      }
    }
  }

  lemma CursorKeepsSound(chain: set<Log>, tb: Table, b: nat)
    requires Sound(chain, tb)
    ensures Sound(chain, Apply(tb, CursorWrite(b)))
  {
    var after := Apply(tb, CursorWrite(b));
    forall k | k in after ensures Stems(chain, after, k) {
      if EventRow(k) {
        assert Stems(chain, tb, k);
        var o :| o in chain && Placed(tb, o, k.block, k.index) &&
          (k.GeTokenKey? ==> GenericOf(o).value.token == k.token) &&
          (k.GeAddrKey? ==> GenericOf(o).value.addr == k.addr);
        assert Placed(after, o, k.block, k.index);
      }
    }
  }

  /** Each write of the list keeps the rows sound when its turn comes. */
  ghost predicate AllProper(tb: Table, ws: seq<Write>, l: Log) {
    forall n :: 0 <= n < |ws| ==> Proper(ApplyAll(tb, ws[..n]), ws[n], l)
  }

  lemma {:induction false} ProperPrefix(chain: set<Log>, tb: Table, ws: seq<Write>, l: Log, n: nat)
    requires Distinct(chain) && l in chain && Sound(chain, tb) && AllProper(tb, ws, l) && n <= |ws|
    ensures Sound(chain, ApplyAll(tb, ws[..n]))
  {
    if n > 0 {
      ProperPrefix(chain, tb, ws, l, n - 1);
      ProperKeepsSound(chain, ApplyAll(tb, ws[..n - 1]), ws[n - 1], l);
      assert ws[..n][..n - 1] == ws[..n - 1];
    }
  }

  lemma AsideProper(tb: Table, ws: seq<Write>, l: Log)
    requires forall i :: 0 <= i < |ws| ==> !EventRow(ws[i].key)
    ensures AllProper(tb, ws, l)
  {
  }

  lemma {:induction false} ProperConcat(tb: Table, u: seq<Write>, v: seq<Write>, l: Log)
    requires AllProper(tb, u, l) && AllProper(ApplyAll(tb, u), v, l)
    ensures AllProper(tb, u + v, l)
  {
    forall n | 0 <= n < |u + v| ensures Proper(ApplyAll(tb, (u + v)[..n]), (u + v)[n], l) {
      if n < |u| {
        assert (u + v)[..n] == u[..n];
      } else {
        assert (u + v)[..n] == u + v[..n - |u|];
        ApplyConcat(tb, u, v[..n - |u|]);
      }
    }
  }

  lemma {:induction false} PlacedThrough(tb: Table, ws: seq<Write>, l: Log, n: nat)
    requires GenericOf(l).Some? && ws == GenericWrites(GenericOf(l).value) && 0 < n <= |ws|
    ensures Placed(ApplyAll(tb, ws[..n]), l, l.block, l.index)
  {
    var k := GenericKey(l.block, l.index);
    assert ws[..n] == [ws[0]] + ws[1..n];
    ApplyConcat(tb, [ws[0]], ws[1..n]);
    assert [ws[0]][..0] == [];
    assert ApplyAll(tb, [ws[0]]) == Apply(ApplyAll(tb, []), ws[0]);
    ApplyElsewhere(ApplyAll(tb, [ws[0]]), ws[1..n], k);
  }

  lemma GenericProper(tb: Table, l: Log)
    ensures AllProper(tb, GenericPart(l), l)
  {
    var ws := GenericPart(l);
    forall n | 0 <= n < |ws| ensures Proper(ApplyAll(tb, ws[..n]), ws[n], l) {
      if n > 0 { PlacedThrough(tb, ws, l, n); }
    }
  }

  lemma RecordNoEvents(tb: Table, l: Log)
    ensures forall i :: 0 <= i < |RecordPart(tb, l)| ==> !EventRow(RecordPart(tb, l)[i].key)
  {
    RecordKeys(tb, l);
  }

  lemma RestProper(tb: Table, l: Log)
    ensures AllProper(tb, Rest(l), l)
  {
    var c := [CursorWrite(l.block)];
    GenericProper(tb, l);
    AsideProper(ApplyAll(tb, GenericPart(l)), c, l);
    ProperConcat(tb, GenericPart(l), c, l);
  }

  lemma LogProper(tb: Table, l: Log)
    ensures AllProper(tb, LogWrites(tb, l), l)
  {
    if LedgerOp(l).Some? || l.sig == ForcedTransfer || l.sig == NoTopics {
      TokenLogKeys(tb, l);
      AsideProper(tb, LogWrites(tb, l), l);
    } else {
      LogSplit(tb, l);
      OtherProper(tb, l);
    }
  }

  lemma OtherProper(tb: Table, l: Log)
    ensures AllProper(tb, RecordPart(tb, l) + Rest(l), l)
  {
    RecordNoEvents(tb, l);
    AsideProper(tb, RecordPart(tb, l), l);
    RestProper(ApplyAll(tb, RecordPart(tb, l)), l);
    ProperConcat(tb, RecordPart(tb, l), Rest(l), l);
  }

  /** A stop anywhere inside a log of the chain leaves every index entry pointing at a primary with
      its token or address; it does not matter whether the log was partly written before. */
  lemma StopKeepsSound(chain: set<Log>, tb: Table, l: Log, n: nat)
    requires Distinct(chain) && l in chain && Sound(chain, tb) && n <= |LogWrites(tb, l)|
    ensures Sound(chain, Stopped(tb, l, n)) && IndexSound(Stopped(tb, l, n))
  {
    LogProper(tb, l);
    ProperPrefix(chain, tb, LogWrites(tb, l), l, n);
    SoundIndex(chain, Stopped(tb, l, n));
  }

  // ---------- complete handling ----------

  /** The index entries of the event at a position are there. */
  predicate EntriesAt(tb: Table, b: nat, i: nat) {
    GenericKey(b, i) in tb && tb[GenericKey(b, i)].Generic? ==>
      var e := tb[GenericKey(b, i)].generic;
      && (e.token != "" ==> GeTokenKey(e.token, b, i) in tb)
      && (e.addr != "" ==> GeAddrKey(e.addr, b, i) in tb)
  }

  ghost predicate NoDeletes(ws: seq<Write>) {
    forall i :: 0 <= i < |ws| && EventRow(ws[i].key) ==> ws[i].Put?
  }

  lemma {:induction false} EventRowsStay(tb: Table, ws: seq<Write>, k: Key)
    requires NoDeletes(ws) && EventRow(k) && k in tb
    ensures k in ApplyAll(tb, ws)
  {
    if ws != [] { EventRowsStay(tb, ws[..|ws| - 1], k); }
  }

  lemma {:induction false} GenericEntries(tb: Table, l: Log)
    requires GenericOf(l).Some?
    ensures var e, after := GenericOf(l).value, ApplyAll(tb, GenericPart(l));
      && (e.token != "" ==> GeTokenKey(e.token, l.block, l.index) in after)
      && (e.addr != "" ==> GeAddrKey(e.addr, l.block, l.index) in after)
  {
    var e := GenericOf(l).value;
    ApplyConcat(tb, [PrimaryWrite(e)] + TokenEntry(e), AddrEntry(e));
    ApplyConcat(tb, [PrimaryWrite(e)], TokenEntry(e));
    if e.token != "" {
      EventRowsStay(ApplyAll(tb, [PrimaryWrite(e)] + TokenEntry(e)), AddrEntry(e),
                    GeTokenKey(e.token, l.block, l.index));
    }
  }

  lemma LogNoDeletes(tb: Table, l: Log)
    ensures NoDeletes(LogWrites(tb, l))
  {
    LogProper(tb, l);
    forall i | 0 <= i < |LogWrites(tb, l)| && EventRow(LogWrites(tb, l)[i].key)
      ensures LogWrites(tb, l)[i].Put?
    {
      assert Proper(ApplyAll(tb, LogWrites(tb, l)[..i]), LogWrites(tb, l)[i], l);
    }
  }

  lemma {:induction false} CursorKeepsEntries(mid: Table, block: nat, b: nat, i: nat)
    requires EntriesAt(mid, b, i)
    ensures EntriesAt(ApplyAll(mid, [CursorWrite(block)]), b, i)
  {
    assert [CursorWrite(block)][..0] == [];
    assert ApplyAll(mid, [CursorWrite(block)]) == Apply(ApplyAll(mid, []), CursorWrite(block));
  }

  lemma {:induction false} GenericComplete(tb: Table, l: Log)
    requires GenericOf(l).Some?
    ensures EntriesAt(ApplyAll(tb, GenericPart(l)), l.block, l.index)
  {
    GenericEntries(tb, l);
    var g := GenericPart(l);
    PlacedThrough(tb, g, l, |g|);
    assert g[..|g|] == g;
  }

  /** The event of a log has its entries once the log is handled. */
  lemma {:induction false} OwnEntries(tb: Table, l: Log)
    requires GenericOf(l).Some?
    ensures EntriesAt(ApplyAll(tb, LogWrites(tb, l)), l.block, l.index)
  {
    LogSplit(tb, l);
    var r, g, c := RecordPart(tb, l), GenericPart(l), [CursorWrite(l.block)];
    ApplyConcat(tb, r, g + c);
    ApplyConcat(ApplyAll(tb, r), g, c);
    GenericComplete(ApplyAll(tb, r), l);
    CursorKeepsEntries(ApplyAll(ApplyAll(tb, r), g), l.block, l.block, l.index);
  }

  /** The primary at another position is not written, and no event row is deleted. */
  lemma ElsewhereStays(tb: Table, l: Log, n: nat, b: nat, i: nat)
    requires !(GenericOf(l).Some? && l.block == b && l.index == i) && n <= |LogWrites(tb, l)|
    ensures NoDeletes(LogWrites(tb, l)[..n])
    ensures forall m :: 0 <= m < n ==> LogWrites(tb, l)[..n][m].key != GenericKey(b, i)
  {
    var ws := LogWrites(tb, l);
    LogProper(tb, l);
    LogNoDeletes(tb, l);
    forall m | 0 <= m < n ensures ws[..n][m].key != GenericKey(b, i) {
      assert Proper(ApplyAll(tb, ws[..m]), ws[m], l);
    }
    assert forall m :: 0 <= m < n ==> ws[..n][m] == ws[m];
  }

  /** Elsewhere the event and its entries are as before, after any number of the writes. */
  lemma OtherEntries(tb: Table, l: Log, n: nat, b: nat, i: nat)
    requires EntriesAt(tb, b, i) && !(GenericOf(l).Some? && l.block == b && l.index == i)
    requires n <= |LogWrites(tb, l)|
    ensures EntriesAt(Stopped(tb, l, n), b, i)
  {
    ElsewhereStays(tb, l, n, b, i);
    EntriesStay(tb, LogWrites(tb, l)[..n], b, i);
  }

  lemma {:induction false} EntriesStay(tb: Table, ws: seq<Write>, b: nat, i: nat)
    requires EntriesAt(tb, b, i) && NoDeletes(ws) && forall m :: 0 <= m < |ws| ==> ws[m].key != GenericKey(b, i)
    ensures EntriesAt(ApplyAll(tb, ws), b, i)
  {
    ApplyElsewhere(tb, ws, GenericKey(b, i));
    if GenericKey(b, i) in tb && tb[GenericKey(b, i)].Generic? {
      var e := tb[GenericKey(b, i)].generic;
      if e.token != "" { EventRowsStay(tb, ws, GeTokenKey(e.token, b, i)); }
      if e.addr != "" { EventRowsStay(tb, ws, GeAddrKey(e.addr, b, i)); }
    }
  }

  lemma AllEntries(tb: Table)
    requires forall b, i :: EntriesAt(tb, b, i)
    ensures IndexComplete(tb)
  {
    forall b, i ensures GenericKey(b, i) in tb && tb[GenericKey(b, i)].Generic? ==>
      var e := tb[GenericKey(b, i)].generic;
      && (e.token != "" ==> GeTokenKey(e.token, b, i) in tb)
      && (e.addr != "" ==> GeAddrKey(e.addr, b, i) in tb)
    {
      assert EntriesAt(tb, b, i);
    }
  }

  /** Handling a log completely leaves no entry missing. */
  lemma {:induction false} LogKeepsComplete(tb: Table, l: Log)
    requires IndexComplete(tb)
    ensures IndexComplete(ApplyAll(tb, LogWrites(tb, l)))
  {
    var after, ws := ApplyAll(tb, LogWrites(tb, l)), LogWrites(tb, l);
    assert ws[..|ws|] == ws;
    forall b, i ensures EntriesAt(after, b, i) {
      if GenericOf(l).Some? && l.block == b && l.index == i {
        OwnEntries(tb, l);
      } else {
        assert EntriesAt(tb, b, i);
        OtherEntries(tb, l, |ws|, b, i);
      }
    }
    AllEntries(after);
  }

  /** On a run without a stop, from an empty store, the indexes are sound and complete. */
  lemma {:induction false} RunIndexed(chain: set<Log>, logs: seq<Log>)
    requires Distinct(chain) && forall l :: l in logs ==> l in chain
    ensures var tb := HandleAll(map[], logs);
      Sound(chain, tb) && IndexSound(tb) && IndexComplete(tb)
  {
    if logs == [] {
      SoundIndex(chain, map[]);
    } else {
      var m := |logs| - 1;
      assert forall l :: l in logs[..m] ==> l in logs;
      assert logs[m] in logs;
      RunIndexed(chain, logs[..m]);
      LogIndexed(chain, HandleAll(map[], logs[..m]), logs[m]);
    }
  }

  lemma {:induction false} LogIndexed(chain: set<Log>, tb: Table, l: Log)
    requires Distinct(chain) && l in chain && Sound(chain, tb) && IndexComplete(tb)
    ensures var after := ApplyAll(tb, LogWrites(tb, l));
      Sound(chain, after) && IndexSound(after) && IndexComplete(after)
  {
    var ws := LogWrites(tb, l);
    StopKeepsSound(chain, tb, l, |ws|);
    assert ws[..|ws|] == ws;
    LogKeepsComplete(tb, l);
  }

  /** On such a run a query by token or by address returns the list that filtering all stored events
      would give. */
  lemma {:induction false} RunQueriesAgree(chain: set<Log>, logs: seq<Log>, all: seq<GenericEvent>,
                                           kind: string, token: OptToken, addr: OptAddr)
    requires Distinct(chain) && forall l :: l in logs ==> l in chain
    requires token == "" || addr == ""
    ensures var tb := HandleAll(map[], logs);
      IsLog(tb, all, kind, Route(token, addr)) <==> IsLog(tb, all, kind, Asked(token, addr))
  {
    RunIndexed(chain, logs);
    IndexAgrees(HandleAll(map[], logs), all, kind, token, addr);
  }

  // ---------- both filters ----------

  /** A store where it fails: the only event of the token is at another address, and is returned. */
  lemma BothFiltersFail(e: GenericEvent, addr: Addr, limit: nat)
    requires e.token != "" && e.addr != addr && limit > 0
    ensures var tb := ApplyAll(map[], GenericWrites(e));
      && IndexSound(tb) && IndexComplete(tb)
      && IsLog(tb, [e], e.kind, Route(e.token, addr))
      && IsLog(tb, [], e.kind, Asked(e.token, addr))
      && LastN(limit, [e]) == [e] && LastN<GenericEvent>(limit, []) == []
  {
    OneEvent(e);
    OneEventIndexed(e);
  }

  /** On one store, at one limit, the answer of the query is the answer to the request. */
  ghost predicate AnswersAt(tb: Table, kind: string, limit: int, token: OptToken, addr: OptAddr) {
    forall all: seq<GenericEvent>, asked: seq<GenericEvent> ::
      IsLog(tb, all, kind, Route(token, addr)) && IsLog(tb, asked, kind, Asked(token, addr)) ==>
      LastN(limit, all) == LastN(limit, asked)
  }

  /** The query answers the request on every store with sound and complete indexes, for every kind and
      limit, exactly when at most one of token and address is given. */
  lemma AnswersExactly(token: OptToken, addr: OptAddr)
    ensures (forall tb: Table, kind: string, limit: int :: IndexSound(tb) && IndexComplete(tb) ==>
              AnswersAt(tb, kind, limit, token, addr)) <==>
      token == "" || addr == ""
  {
    if token == "" || addr == "" {
      forall tb: Table, kind: string, limit: int | IndexSound(tb) && IndexComplete(tb)
        ensures AnswersAt(tb, kind, limit, token, addr)
      {
        OneFilterAnswers(tb, kind, limit, token, addr);
      }
    } else {
      var e := GenericEvent(0, 0, 0, "", token, "");
      var tb := ApplyAll(map[], GenericWrites(e));
      BothFiltersFail(e, addr, 1);
      assert !AnswersAt(tb, "", 1, token, addr);
    }
  }

  lemma OneFilterAnswers(tb: Table, kind: string, limit: int, token: OptToken, addr: OptAddr)
    requires IndexSound(tb) && IndexComplete(tb) && (token == "" || addr == "")
    ensures AnswersAt(tb, kind, limit, token, addr)
  {
    forall all: seq<GenericEvent>, asked: seq<GenericEvent>
      | IsLog(tb, all, kind, Route(token, addr)) && IsLog(tb, asked, kind, Asked(token, addr))
      ensures all == asked
    {
      IndexAgrees(tb, all, kind, token, addr);
      LogUnique(tb, all, asked);
    }
  }

  lemma OneEventIndexed(e: GenericEvent)
    ensures var tb := ApplyAll(map[], GenericWrites(e)); IndexSound(tb) && IndexComplete(tb)
  {
    OneEvent(e);
  }

  lemma OneEvent(e: GenericEvent)
    ensures var tb := ApplyAll(map[], GenericWrites(e));
      && tb.Keys == {GenericKey(e.block, e.index)} +
           (if e.token != "" then {GeTokenKey(e.token, e.block, e.index)} else {}) +
           (if e.addr != "" then {GeAddrKey(e.addr, e.block, e.index)} else {})
      && tb[GenericKey(e.block, e.index)] == Generic(e)
  {
    ApplyConcat(map[], [PrimaryWrite(e)] + TokenEntry(e), AddrEntry(e));
    ApplyConcat(map[], [PrimaryWrite(e)], TokenEntry(e));
    OneWrite(map[], PrimaryWrite(e));
    var mid := ApplyAll(map[], [PrimaryWrite(e)]);
    if e.token != "" { OneWrite(mid, TokenEntry(e)[0]); }
    mid := ApplyAll(mid, TokenEntry(e));
    if e.addr != "" { OneWrite(mid, AddrEntry(e)[0]); }
  }
}
