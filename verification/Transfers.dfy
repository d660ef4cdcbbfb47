/** The transfer history as an account of what happened.

Every stored transfer event can be read back from its own fields. Read back in key order, the
history runs the plain ledger to the account of every token, and every action that a contract
reports has left an event with its parties, token and amount.
*/
module Transfers {
  import opened KeyOrder
  import opened Numerals
  import opened Keys
  import opened Rows
  import opened Ledger
  import opened Plans
  import opened Accounts
  import opened Abi
  import opened Logs
  import opened Replay
  import opened Listings
  import opened EventStream
  import opened Chains

  // ---------- reading an event back ----------

  /** What a stored event says: a forced transfer moves nothing, its paired transfer does. */
  function ReadBack(e: TransferEvent): Option<Op> {
    if e.kind == "mint" then Some(Mint(e.token, e.to, e.amount))
    else if e.kind == "burn" then Some(Burn(e.token, e.from, e.amount))
    else if e.kind == "transfer" then Some(Transfer(e.token, e.from, e.to, e.amount))
    else None
  }

  function ReadAll(all: seq<TransferEvent>): seq<Op> {
    if all == [] then []
    else
      var ops := ReadAll(all[..|all| - 1]);
      match ReadBack(all[|all| - 1]) case Some(op) => ops + [op] case None => ops
  }

  /** Tokens come from the zero address when minted and go to it when burned, and a transfer involves it on
      neither side. */
  predicate Shaped(e: TransferEvent) {
    || (e.kind == "mint" && e.from == AddrText(0))
    || (e.kind == "burn" && e.to == AddrText(0))
    || (e.kind == "transfer" && e.from != AddrText(0) && e.to != AddrText(0))
    || e.kind == "forced_transfer"
  }

  /** The event a log leaves. */
  function EventOf(l: Log): Option<TransferEvent> {
    match LedgerOp(l)
    case Some(op) => Some(OpEvent(op, l.Stamp()))
    case None =>
      if l.sig == ForcedTransfer && |l.args| >= 3
      then Some(TransferEvent(l.tx, l.block, l.index, AddrText(l.args[1]), AddrText(l.args[2]),
                              TokenText(l.args[0]), Word(l.data, 0), "forced_transfer"))
      else None
  }

  lemma ZeroText()
    ensures ZERO_ADDR == AddrText(0)
  {
  }

  /** It bears the place of the log, and is read back as what the log stands for. */
  lemma EventRead(l: Log)
    ensures LedgerOp(l).Some? ==> EventOf(l).Some?
    ensures EventOf(l).Some? ==>
      var e := EventOf(l).value;
      && ReadBack(e) == LedgerOp(l) && Shaped(e)
      && e.tx == l.tx && e.block == l.block && e.index == l.index
  {
    ZeroText();
    if l.sig == TransferSingle && LedgerOp(l).Some? {
      NonZero(l.args[1]);
      NonZero(l.args[2]);
    }
  }

  lemma NonZero(n: nat)
    ensures AddrText(n) == AddrText(0) <==> n % ADDRESSES == 0
  {
    if AddrText(n) == AddrText(0) { AddrTextInjective(n, 0); }
  }

  /** The events of some logs, in the order of the logs. */
  function Events(logs: seq<Log>): seq<TransferEvent> {
    if logs == [] then []
    else
      var r := Events(logs[..|logs| - 1]);
      match EventOf(logs[|logs| - 1]) case Some(e) => r + [e] case None => r
  }

  lemma {:induction false} EventsRead(logs: seq<Log>)
    ensures ReadAll(Events(logs)) == OpsOf(logs)
  {
    if logs != [] {
      var init, l := logs[..|logs| - 1], logs[|logs| - 1];
      EventsRead(init);
      EventRead(l);
      if EventOf(l).Some? { ReadNext(Events(init), EventOf(l).value); }
    }
  }

  lemma {:induction false} ReadNext(all: seq<TransferEvent>, e: TransferEvent)
    ensures ReadAll(all + [e]) ==
      match ReadBack(e) case Some(op) => ReadAll(all) + [op] case None => ReadAll(all)
  {
    assert (all + [e])[..|all|] == all;
  }

  lemma {:induction false} EventsMember(logs: seq<Log>, e: TransferEvent)
    ensures e in Events(logs) <==> exists l :: l in logs && EventOf(l) == Some(e)
  {
    if logs != [] {
      assert logs == logs[..|logs| - 1] + [logs[|logs| - 1]];
      EventsMember(logs[..|logs| - 1], e);
    }
  }

  // ---------- the rows ----------

  /** The row at a position after a log: its event if that is its place, else what was there. */
  lemma {:induction false} RowAfter(tb: Table, l: Log, b: nat, i: nat)
    ensures var k, after := EventKey(b, i), ApplyAll(tb, LogWrites(tb, l));
      if EventOf(l).Some? && l.block == b && l.index == i
      then k in after && after[k] == Event(EventOf(l).value)
      else Agree(after, tb, k)
  {
    if LedgerOp(l).Some? {
      LedgerRow(tb, l, b, i);
    } else if l.sig == ForcedTransfer {
      ForcedRow(tb, l, b, i);
    } else {
      OtherRow(tb, l, b, i);
    }
  }

  lemma {:induction false} OneLast(tb: Table, u: seq<Write>, w: Write, c: Write, k: Key)
    requires (forall j :: 0 <= j < |u| ==> u[j].key != k) && c.key != k
    ensures var after := ApplyAll(tb, u + [w] + [c]);
      if w.key == k && w.Put? then k in after && after[k] == w.val
      else w.key != k ==> Agree(after, tb, k)
  {
    assert (u + [w] + [c])[..|u| + 1] == u + [w] && (u + [w])[..|u|] == u;
    ApplyElsewhere(tb, u, k);
  }

  lemma {:induction false} LedgerRow(tb: Table, l: Log, b: nat, i: nat)
    requires LedgerOp(l).Some?
    ensures var k, after := EventKey(b, i), ApplyAll(tb, LogWrites(tb, l));
      if l.block == b && l.index == i then k in after && after[k] == Event(EventOf(l).value)
      else Agree(after, tb, k)
  {
    var op := LedgerOp(l).value;
    var h, m, w := HolderWrites(tb, op), MetaWrite(NewMeta(tb, op)), EventWrite(OpEvent(op, l.Stamp()));
    assert LogWrites(tb, l) == (h + [m]) + [w] + [CursorWrite(l.block)];
    RowsAside(tb, op, b, i);
    OneLast(tb, h + [m], w, CursorWrite(l.block), EventKey(b, i));
  }

  lemma RowsAside(tb: Table, op: Op, b: nat, i: nat)
    ensures forall j :: 0 <= j < |HolderWrites(tb, op)| ==> HolderWrites(tb, op)[j].key != EventKey(b, i)
  {
  }

  lemma ForcedLog(tb: Table, l: Log, w: Write)
    requires LedgerOp(l).None? && l.sig == ForcedTransfer && |l.args| >= 3 && w == EventWrite(EventOf(l).value)
    ensures LogWrites(tb, l) == [] + [w] + [CursorWrite(l.block)]
  {
  }

  lemma {:induction false} ForcedRow(tb: Table, l: Log, b: nat, i: nat)
    requires LedgerOp(l).None? && l.sig == ForcedTransfer
    ensures var k, after := EventKey(b, i), ApplyAll(tb, LogWrites(tb, l));
      if EventOf(l).Some? && l.block == b && l.index == i
      then k in after && after[k] == Event(EventOf(l).value)
      else Agree(after, tb, k)
  {
    if |l.args| >= 3 {
      var w := EventWrite(EventOf(l).value);
      ForcedLog(tb, l, w);
      OneLast(tb, [], w, CursorWrite(l.block), EventKey(b, i));
    } else {
      ApplyElsewhere(tb, LogWrites(tb, l), EventKey(b, i));
    }
  }

  lemma {:induction false} OtherRow(tb: Table, l: Log, b: nat, i: nat)
    requires LedgerOp(l).None? && l.sig != ForcedTransfer
    ensures Agree(ApplyAll(tb, LogWrites(tb, l)), tb, EventKey(b, i))
  {
    if l.sig != NoTopics {
      var r := RecordPart(tb, l);
      LogSplit(tb, l);
      ApplyConcat(tb, r, Rest(l));
      RecordSpares(tb, l, b, i);
      ApplyElsewhere(tb, r, EventKey(b, i));
      RestSpares(l, EventKey(b, i));
      ApplyElsewhere(ApplyAll(tb, r), Rest(l), EventKey(b, i));
    } else {
      assert LogWrites(tb, l) == [];
    }
  }

  lemma RecordSpares(tb: Table, l: Log, b: nat, i: nat)
    ensures Spares(RecordPart(tb, l), EventKey(b, i))
  {
    RecordKeys(tb, l);
  }

  // ---------- the history ----------

  /** No two logs share block and log index. */
  ghost predicate Apart(logs: seq<Log>) {
    forall i, j :: 0 <= i < j < |logs| ==> logs[i].block != logs[j].block || logs[i].index != logs[j].index
  }

  /** From an empty store, exactly the events of the logs have happened. */
  lemma {:induction false} HappenedExactly(logs: seq<Log>, e: TransferEvent)
    requires Apart(logs)
    ensures Happened(HandleAll(map[], logs), e) <==> e in Events(logs)
  {
    if logs != [] {
      var init, l := logs[..|logs| - 1], logs[|logs| - 1];
      HappenedExactly(init, e);
      RowAfter(HandleAll(map[], init), l, e.block, e.index);
      EventsPlace(init, e);
      if EventOf(l).Some? { EventRead(l); }
    }
  }

  lemma {:induction false} EventsPlace(logs: seq<Log>, e: TransferEvent)
    ensures e in Events(logs) ==> exists j :: 0 <= j < |logs| && logs[j].block == e.block && logs[j].index == e.index
  {
    EventsMember(logs, e);
    if l :| l in logs && EventOf(l) == Some(e) {
      EventRead(l);
      var j :| 0 <= j < |logs| && logs[j] == l;
    }
  }

  /** Logs whose positions fit the padded widths. */
  predicate Narrow(l: Log) { l.block < Pow10(BLOCK_WIDTH) && l.index < Pow10(INDEX_WIDTH) }

  ghost predicate InKeyOrder(all: seq<TransferEvent>) {
    forall i, j :: 0 <= i < j < |all| ==> Less(EventBytes(all[i]), EventBytes(all[j]))
  }

  lemma InKeyOrderNext(all: seq<TransferEvent>, e: TransferEvent)
    requires InKeyOrder(all) && forall x :: x in all ==> Less(EventBytes(x), EventBytes(e))
    ensures InKeyOrder(all + [e])
  {
  }

  lemma {:induction false} EventsOrdered(logs: seq<Log>)
    requires ChainOrder(logs) && forall l :: l in logs ==> Narrow(l)
    ensures InKeyOrder(Events(logs))
  {
    if logs != [] {
      var init, l := logs[..|logs| - 1], logs[|logs| - 1];
      InitOrdered(logs);
      EventsOrdered(init);
      if EventOf(l).Some? {
        forall e | e in Events(init) ensures Less(EventBytes(e), EventBytes(EventOf(l).value)) {
          LaterEvent(logs, e);
        }
        InKeyOrderNext(Events(init), EventOf(l).value);
      }
    }
  }

  lemma InitOrdered(logs: seq<Log>)
    requires logs != [] && ChainOrder(logs)
    ensures ChainOrder(logs[..|logs| - 1])
  {
    var init := logs[..|logs| - 1];
    forall i, j | 0 <= i < j < |init| ensures Before(init[i], init[j]) { assert Before(logs[i], logs[j]); }
  }

  lemma LaterEvent(logs: seq<Log>, e: TransferEvent)
    requires ChainOrder(logs) && (forall l :: l in logs ==> Narrow(l))
    requires logs != [] && e in Events(logs[..|logs| - 1]) && EventOf(logs[|logs| - 1]).Some?
    ensures Less(EventBytes(e), EventBytes(EventOf(logs[|logs| - 1]).value))
  {
    var l := logs[|logs| - 1];
    EventsPlace(logs[..|logs| - 1], e);
    var j :| 0 <= j < |logs| - 1 && logs[..|logs| - 1][j].block == e.block && logs[..|logs| - 1][j].index == e.index;
    assert Before(logs[j], logs[|logs| - 1]);
    assert logs[j] in logs && l in logs;
    EventRead(l);
    EventKeyOrder(e.block, e.index, l.block, l.index);
  }

  lemma OrderedApart(logs: seq<Log>)
    requires ChainOrder(logs)
    ensures Apart(logs)
  {
    forall i, j | 0 <= i < j < |logs|
      ensures logs[i].block != logs[j].block || logs[i].index != logs[j].index
    {
      assert Before(logs[i], logs[j]);
    }
  }

  lemma HistoryUnique(tb: Table, s: seq<TransferEvent>, t: seq<TransferEvent>)
    requires IsHistory(tb, s) && IsHistory(tb, t)
    ensures s == t
  {
    var ks := seq(|s|, i requires 0 <= i < |s| => EventBytes(s[i]));
    var kt := seq(|t|, i requires 0 <= i < |t| => EventBytes(t[i]));
    forall x ensures x in ks <==> x in kt {
      if x in ks {
        var i :| 0 <= i < |ks| && ks[i] == x;
        assert s[i] in t;
        var j :| 0 <= j < |t| && t[j] == s[i];
        assert kt[j] == x;
      }
      if x in kt {
        var j :| 0 <= j < |kt| && kt[j] == x;
        assert t[j] in s;
        var i :| 0 <= i < |s| && s[i] == t[j];
        assert ks[i] == x;
      }
    }
    AscendingUnique(ks, kt);
    forall i | 0 <= i < |s| ensures s[i] == t[i] {
      assert ks[i] == kt[i];
      EncodeInjective(EventKey(s[i].block, s[i].index), EventKey(t[i].block, t[i].index));
      assert s[i] in s && t[i] in t;
    }
  }

  /** The history of a store that handled logs in chain order is their events in that order. */
  lemma {:induction false} HistoryEvents(logs: seq<Log>, all: seq<TransferEvent>)
    requires ChainOrder(logs) && (forall l :: l in logs ==> Narrow(l))
    requires IsHistory(HandleAll(map[], logs), all)
    ensures all == Events(logs)
  {
    var tb := HandleAll(map[], logs);
    OrderedApart(logs);
    forall e: TransferEvent ensures e in Events(logs) <==> Happened(tb, e) { HappenedExactly(logs, e); }
    EventsOrdered(logs);
    HistoryUnique(tb, all, Events(logs));
  }

  lemma {:induction false} EventsShaped(logs: seq<Log>, e: TransferEvent)
    requires e in Events(logs)
    ensures Shaped(e)
  {
    EventsMember(logs, e);
    var l :| l in logs && EventOf(l) == Some(e);
    EventRead(l);
  }

  /** Read back in key order, the history of a store that handled logs in chain order is the ledger: it runs
      to the account of every token, and every event has one of the four shapes. */
  lemma {:induction false} HistoryIsLedger(logs: seq<Log>, all: seq<TransferEvent>, u: Token)
    requires ChainOrder(logs) && AllReadable(logs) && (forall l :: l in logs ==> Narrow(l))
    requires IsHistory(HandleAll(map[], logs), all)
    ensures AccountOf(HandleAll(map[], logs), u) == Run(EMPTY, OnToken(ReadAll(all), u))
    ensures forall e :: e in all ==> Shaped(e)
  {
    HistoryEvents(logs, all);
    EventsRead(logs);
    assert AccountOf(map[], u) == EMPTY;
    HandledRuns(map[], logs, u);
    forall e | e in all ensures Shaped(e) { EventsShaped(logs, e); }
  }

  // ---------- the actions of a contract ----------

  /** An event with these parties, token and amount, in the contract's numbers. */
  predicate Says(e: TransferEvent, kind: string, from: nat, to: nat, t: nat, n: nat) {
    && e.kind == kind && e.from == AddrText(from) && e.to == AddrText(to)
    && e.token == TokenText(t) && e.amount == n
  }

  predicate Tells(e: TransferEvent, x: Action) {
    match x
    case DoMint(t, to, n) => Says(e, "mint", 0, to, t, n)
    case DoBurn(t, from, n) => Says(e, "burn", from, 0, t, n)
    case DoForced(t, from, to, n) => Says(e, "transfer", from, to, t, n)
    case DoTransfer(t, from, to, n) => Says(e, "transfer", from, to, t, n)
  }

  lemma {:induction false} CarrierThere(xs: seq<Action>, open: multiset<Action>, logs: seq<Log>, x: Action)
    returns (l: Log)
    requires Interleaved(xs, open, logs) && x in xs
    ensures l in logs && IsCarrier(l, x)
    decreases |logs|
  {
    var last, init := logs[|logs| - 1], logs[..|logs| - 1];
    assert logs == init + [last];
    if IsOther(last) && Interleaved(xs, open, init) {
      l := CarrierThere(xs, open, init, x);
    } else if xs != [] && IsCarrier(last, xs[|xs| - 1]) && Interleaved(xs[..|xs| - 1], open, init) {
      assert xs == xs[..|xs| - 1] + [xs[|xs| - 1]];
      if x == xs[|xs| - 1] { l := last; } else { l := CarrierThere(xs[..|xs| - 1], open, init, x); }
    } else {
      var y :| y in open && IsCompanion(last, y) && Interleaved(xs, open - multiset{y}, init);
      l := CarrierThere(xs, open - multiset{y}, init, x);
    }
  }

  lemma {:induction false} CompanionThere(xs: seq<Action>, open: multiset<Action>, logs: seq<Log>, x: Action)
    returns (l: Log)
    requires Interleaved(xs, open, logs) && x in open
    ensures l in logs && IsCompanion(l, x)
    decreases |logs|
  {
    var last, init := logs[|logs| - 1], logs[..|logs| - 1];
    assert logs == init + [last];
    if IsOther(last) && Interleaved(xs, open, init) {
      l := CompanionThere(xs, open, init, x);
    } else if xs != [] && IsCarrier(last, xs[|xs| - 1]) && Interleaved(xs[..|xs| - 1], open, init) {
      l := CompanionThere(xs[..|xs| - 1], open, init, x);
    } else {
      var y :| y in open && IsCompanion(last, y) && Interleaved(xs, open - multiset{y}, init);
      if x == y { l := last; } else { l := CompanionThere(xs, open - multiset{y}, init, x); }
    }
  }

  lemma {:induction false} PairedIn(xs: seq<Action>, x: Action)
    requires x in xs && IsPaired(x)
    ensures x in Paired(xs)
  {
    assert xs == xs[..|xs| - 1] + [xs[|xs| - 1]];
    if x != xs[|xs| - 1] { PairedIn(xs[..|xs| - 1], x); }
  }

  lemma CarrierTells(l: Log, x: Action)
    requires WellFormed(x) && IsCarrier(l, x)
    ensures EventOf(l).Some? && Tells(EventOf(l).value, x)
  {
    ZeroText();
    CarrierCounts(l, x);
  }

  lemma ForcedTells(l: Log, x: Action)
    requires WellFormed(x) && x.DoForced? && IsOwn(l, x)
    ensures EventOf(l).Some? && Says(EventOf(l).value, "forced_transfer", x.from, x.to, x.token, x.amount)
  {
    assert l.data[32 * 0..32 * (0 + 1)] == l.data[..32];
    WordAt(l.data, 0, x.amount);
  }

  /** Every reported action has left an event with its parties, token and amount, and a forced transfer a
      second one that names it so. */
  lemma {:induction false} ActionsHappened(logs: seq<Log>, xs: seq<Action>, x: Action)
    requires Apart(logs) && Reports(logs, xs) && x in xs && WellFormed(x)
    ensures exists e :: Happened(HandleAll(map[], logs), e) && Tells(e, x)
    ensures x.DoForced? ==> exists e ::
      Happened(HandleAll(map[], logs), e) && Says(e, "forced_transfer", x.from, x.to, x.token, x.amount)
  {
    var l := CarrierThere(xs, Paired(xs), logs, x);
    CarrierTells(l, x);
    LogHappened(logs, l);
    if x.DoForced? {
      PairedIn(xs, x);
      var m := CompanionThere(xs, Paired(xs), logs, x);
      ForcedTells(m, x);
      LogHappened(logs, m);
    }
  }

  lemma {:induction false} LogHappened(logs: seq<Log>, l: Log)
    requires Apart(logs) && l in logs && EventOf(l).Some?
    ensures Happened(HandleAll(map[], logs), EventOf(l).value)
  {
    EventsMember(logs, EventOf(l).value);
    HappenedExactly(logs, EventOf(l).value);
  }
}
