/** Handling a log again after a stop in the middle of it.

After a stop some of a log's writes are on disk and the log may be handled again from the start.
Whether that repairs the store or corrupts it is decided exactly: every log may be replayed at
every stop except those that move the ledger.
*/
module Replay {
  import opened Keys
  import opened Rows
  import opened Ledger
  import opened Plans
  import opened Accounts
  import opened Abi
  import opened Logs

  /** Two tables hold the same row under a key. */
  predicate Agree(s: Table, t: Table, k: Key) {
    (k in s <==> k in t) && (k in s ==> s[k] == t[k])
  }

  ghost predicate Writes(ws: seq<Write>, k: Key) { exists j :: 0 <= j < |ws| && ws[j].key == k }

  /** A key that is written takes its row from the writes alone. */
  lemma {:induction false} LastWriteWins(s: Table, t: Table, ws: seq<Write>, k: Key)
    requires Agree(s, t, k) || Writes(ws, k)
    ensures Agree(ApplyAll(s, ws), ApplyAll(t, ws), k)
  {
    if ws != [] {
      var m := |ws| - 1;
      if ws[m].key != k {
        if Writes(ws, k) {
          var j :| 0 <= j < |ws| && ws[j].key == k;
          assert ws[..m][j].key == k;
        }
        LastWriteWins(s, t, ws[..m], k);
      }
    }
  }

  /** Writes whose keys are all written again later leave no trace. */
  lemma {:induction false} Absorb(tb: Table, u: seq<Write>, ws: seq<Write>)
    requires forall i :: 0 <= i < |u| ==> Writes(ws, u[i].key)
    ensures ApplyAll(ApplyAll(tb, u), ws) == ApplyAll(tb, ws)
  {
    var s, t := ApplyAll(ApplyAll(tb, u), ws), ApplyAll(tb, ws);
    forall k ensures Agree(s, t, k) {
      if !Writes(ws, k) { ApplyElsewhere(tb, u, k); }
      LastWriteWins(ApplyAll(tb, u), tb, ws, k);
    }
    SameTable(s, t);
  }

  lemma SameTable(s: Table, t: Table)
    requires forall k :: Agree(s, t, k)
    ensures s == t
  {
    forall k ensures k in s <==> k in t { assert Agree(s, t, k); }
    forall k | k in s ensures s[k] == t[k] { assert Agree(s, t, k); }
  }

  lemma {:induction false} AbsorbPrefix(tb: Table, ws: seq<Write>, n: nat)
    requires n <= |ws|
    ensures ApplyAll(ApplyAll(tb, ws[..n]), ws) == ApplyAll(tb, ws)
  {
    forall i | 0 <= i < n ensures Writes(ws, ws[..n][i].key) { assert ws[i].key == ws[..n][i].key; }
    Absorb(tb, ws[..n], ws);
  }

  // ---------- stop and replay ----------

  /** The table a stop after `n` writes of a log leaves behind. */
  function Stopped(tb: Table, l: Log, n: nat): Table
    requires n <= |LogWrites(tb, l)|
  {
    ApplyAll(tb, LogWrites(tb, l)[..n])
  }

  /** Handling the log again from there ends where handling it once would have. */
  predicate Repairs(tb: Table, l: Log, n: nat)
    requires n <= |LogWrites(tb, l)|
  {
    var mid := Stopped(tb, l, n);
    ApplyAll(mid, LogWrites(mid, l)) == ApplyAll(tb, LogWrites(tb, l))
  }

  /** Replaying is harmless at every stop inside the log, from every store that handling logs can lead to. */
  ghost predicate ReplaySafe(l: Log) {
    forall logs: seq<Log>, n: nat ::
      AllReadable(logs) && n < |LogWrites(HandleAll(map[], logs), l)| ==> Repairs(HandleAll(map[], logs), l, n)
  }

  /** If the stop does not change what the log would write, replaying repairs. */
  lemma SamePlan(tb: Table, l: Log, n: nat)
    requires n <= |LogWrites(tb, l)|
    requires LogWrites(Stopped(tb, l, n), l) == LogWrites(tb, l)
    ensures Repairs(tb, l, n)
  {
    AbsorbPrefix(tb, LogWrites(tb, l), n);
  }

  // ---------- logs outside the ledger ----------

  /** The writes after the record part do not depend on the table. */
  function Rest(l: Log): seq<Write> { GenericPart(l) + [CursorWrite(l.block)] }

  /** The rest of the writes does not touch a row. */
  ghost predicate Spares(rest: seq<Write>, k: Key) {
    forall i :: 0 <= i < |rest| ==> rest[i].key != k
  }

  lemma RestSpares(l: Log, k: Key)
    requires !k.GenericKey? && !k.GeTokenKey? && !k.GeAddrKey? && !k.CursorKey?
    ensures Spares(Rest(l), k)
  {
  }

  /** The table after `n` of the writes `r + rest`. */
  function Cut(tb: Table, r: seq<Write>, rest: seq<Write>, n: nat): Table
    requires n <= |r| + |rest|
  {
    ApplyAll(tb, (r + rest)[..n])
  }

  /** A stop either cuts the record part or comes after all of it. */
  lemma {:induction false} CutSplit(tb: Table, r: seq<Write>, rest: seq<Write>, n: nat)
    requires n <= |r| + |rest|
    ensures n < |r| ==> Cut(tb, r, rest, n) == ApplyAll(tb, r[..n])
    ensures n >= |r| ==> Cut(tb, r, rest, n) == ApplyAll(ApplyAll(tb, r), rest[..n - |r|])
  {
    if n < |r| {
      assert (r + rest)[..n] == r[..n];
    } else {
      assert (r + rest)[..n] == r + rest[..n - |r|];
      ApplyConcat(tb, r, rest[..n - |r|]);
    }
  }

  /** After the record part, a spared row is the one the record part left. */
  lemma {:induction false} CutKeeps(tb: Table, r: seq<Write>, rest: seq<Write>, n: nat, k: Key)
    requires |r| <= n <= |r| + |rest| && Spares(rest, k)
    ensures Agree(Cut(tb, r, rest, n), ApplyAll(tb, r), k)
  {
    CutSplit(tb, r, rest, n);
    ApplyElsewhere(ApplyAll(tb, r), rest[..n - |r|], k);
  }

  /** What handling would write for its record after the stop: the same again, or, once the record
      part is complete, nothing that changes the table. */
  ghost predicate Settled(tb: Table, r: seq<Write>, rest: seq<Write>, n: nat, again: seq<Write>)
    requires n <= |r| + |rest|
  {
    again == r || (n >= |r| && ApplyAll(Cut(tb, r, rest, n), again) == Cut(tb, r, rest, n))
  }

  /** Then replaying ends where an uninterrupted handling would have. */
  lemma {:induction false} SettledRepairs(tb: Table, r: seq<Write>, rest: seq<Write>, n: nat,
                                          again: seq<Write>)
    requires n <= |r| + |rest| && Settled(tb, r, rest, n, again)
    ensures ApplyAll(Cut(tb, r, rest, n), again + rest) == ApplyAll(tb, r + rest)
  {
    if again == r {
      AbsorbPrefix(tb, r + rest, n);
    } else {
      CutSplit(tb, r, rest, n);
      ApplyConcat(Cut(tb, r, rest, n), again, rest);
      AbsorbPrefix(ApplyAll(tb, r), rest, n - |r|);
      ApplyConcat(tb, r, rest);
    }
  }

  /** A single record write is in place after any stop past it. */
  lemma FirstWrite(tb: Table, w: Write, rest: seq<Write>, n: nat)
    requires w.Put? && Spares(rest, w.key) && 0 < n <= 1 + |rest|
    ensures var mid := Cut(tb, [w], rest, n); w.key in mid && mid[w.key] == w.val
  {
    CutKeeps(tb, [w], rest, n, w.key);
    assert [w][..0] == [];
    assert ApplyAll(tb, [w]) == Apply(ApplyAll(tb, []), w);
  }

  lemma UnbindSettled(tb: Table, w: Addr, rest: seq<Write>, n: nat)
    requires n <= |UnbindWrites(tb, w)| + |rest| && Spares(rest, IdentityKey(w))
    ensures var r := UnbindWrites(tb, w);
      Settled(tb, r, rest, n, UnbindWrites(Cut(tb, r, rest, n), w))
  {
    var r := UnbindWrites(tb, w);
    CutSplit(tb, r, rest, n);
    if n < |r| {
      ApplyElsewhere(tb, r[..n], IdentityKey(w));
    } else {
      CutKeeps(tb, r, rest, n, IdentityKey(w));
      NothingLeft(Cut(tb, r, rest, n), w);
    }
  }

  lemma {:induction false} NothingLeft(mid: Table, w: Addr)
    requires IdentityKey(w) !in mid
    ensures ApplyAll(mid, UnbindWrites(mid, w)) == mid
  {
    assert UnbindWrites(mid, w) == [Delete(IdentityKey(w))];
    assert [Delete(IdentityKey(w))][..0] == [];
    assert mid - {IdentityKey(w)} == mid;
  }

  /** The identity of a wallet that recovery carries over: its identity contract and country. */
  predicate Carries(tb: Table, w: Addr, id: Identity) {
    var o := IdentityOf(tb, w);
    o.Some? && o.value.identity == id.identity && o.value.country == id.country
  }

  lemma {:induction false} CarriesThrough(tb: Table, ws: seq<Write>, w: Addr, id: Identity)
    requires Carries(tb, w, id)
    requires forall i :: 0 <= i < |ws| && ws[i].key == IdentityKey(w) ==>
      ws[i].Put? && ws[i].val.Ident? && ws[i].val.id.identity == id.identity && ws[i].val.id.country == id.country
    ensures Carries(ApplyAll(tb, ws), w, id)
  {
    if ws != [] { CarriesThrough(tb, ws[..|ws| - 1], w, id); }
  }

  /** What recovery writes is decided by what is carried over. */
  lemma RecoverPlan(tb: Table, lost: Addr, next: Addr, block: nat, id: Identity)
    requires Carries(tb, lost, id)
    ensures RecoverWrites(tb, lost, next, block) ==
      BindWrites(Identity(next, id.identity, id.country, block)) +
      [Delete(CountryKey(id.country, lost)), Delete(IdentityKey(lost))]
  {
    CarriesThrough(tb, BindWrites(Identity(next, id.identity, id.country, block)), lost, id);
  }

  lemma {:induction false} RecoverCut(tb: Table, lost: Addr, next: Addr, block: nat, m: nat)
    requires m < |RecoverWrites(tb, lost, next, block)|
    ensures var mid := ApplyAll(tb, RecoverWrites(tb, lost, next, block)[..m]);
      RecoverWrites(mid, lost, next, block) == RecoverWrites(tb, lost, next, block)
  {
    var id := IdentityOf(tb, lost).value;
    RecoverPlan(tb, lost, next, block, id);
    var r := RecoverWrites(tb, lost, next, block);
    CarriesThrough(tb, r[..m], lost, id);
    RecoverPlan(ApplyAll(tb, r[..m]), lost, next, block, id);
  }

  lemma {:induction false} RecoverDone(tb: Table, lost: Addr, next: Addr, block: nat)
    ensures IdentityOf(ApplyAll(tb, RecoverWrites(tb, lost, next, block)), lost).None?
  {
    match IdentityOf(tb, lost)
    case None =>
    case Some(id) => RecoverPlan(tb, lost, next, block, id);
  }

  lemma RecoverSettled(tb: Table, lost: Addr, next: Addr, block: nat, rest: seq<Write>, n: nat)
    requires n <= |RecoverWrites(tb, lost, next, block)| + |rest| && Spares(rest, IdentityKey(lost))
    ensures var r := RecoverWrites(tb, lost, next, block);
      Settled(tb, r, rest, n, RecoverWrites(Cut(tb, r, rest, n), lost, next, block))
  {
    var r := RecoverWrites(tb, lost, next, block);
    CutSplit(tb, r, rest, n);
    if n < |r| {
      RecoverCut(tb, lost, next, block, n);
    } else {
      RecoverDone(tb, lost, next, block);
      CutKeeps(tb, r, rest, n, IdentityKey(lost));
      assert RecoverWrites(Cut(tb, r, rest, n), lost, next, block) == [];
    }
  }

  predicate IsUpdate(sig: Signature) {
    sig == URI || sig == AssetPaused || sig == AssetUnpaused || sig == PartialFreeze || sig == LockupSet
  }

  /** Updating one field again with the same value changes nothing. */
  lemma UpdateAgain(tb: Table, mid: Table, l: Log)
    requires Typed(tb) && IsUpdate(l.sig) && |l.args| >= RecordNeeds(l.sig)
    requires var w := RecordWrites(tb, l)[0]; w.Put? && w.key in mid && mid[w.key] == w.val
    ensures RecordWrites(mid, l) == RecordWrites(tb, l)
  {
    if l.sig == PartialFreeze || l.sig == LockupSet {
      FreezeFits(tb, AddrText(l.args[1]), TokenText(l.args[0]));
    } else {
      AssetFits(tb, TokenText(l.args[0]));
    }
  }

  /** A record that is rewritten field by field: asset and freeze updates. */
  lemma UpdateSettled(tb: Table, l: Log, n: nat)
    requires IsUpdate(l.sig) && Typed(tb) && |l.args| >= RecordNeeds(l.sig)
    requires 0 < n <= |RecordWrites(tb, l)| + |Rest(l)|
    ensures RecordWrites(Cut(tb, RecordWrites(tb, l), Rest(l), n), l) == RecordWrites(tb, l)
  {
    var w := RecordWrites(tb, l)[0];
    assert RecordWrites(tb, l) == [w];
    RestSpares(l, w.key);
    FirstWrite(tb, w, Rest(l), n);
    UpdateAgain(tb, Cut(tb, [w], Rest(l), n), l);
  }

  lemma RecordSettled(tb: Table, l: Log, n: nat)
    requires Typed(tb) && 0 < n <= |RecordPart(tb, l)| + |Rest(l)|
    ensures var r := RecordPart(tb, l);
      Settled(tb, r, Rest(l), n, RecordPart(Cut(tb, r, Rest(l), n), l))
  {
    if |l.args| >= RecordNeeds(l.sig) {
      if IsUpdate(l.sig) {
        UpdateSettled(tb, l, n);
      } else if l.sig == IdentityUnbound {
        RestSpares(l, IdentityKey(AddrText(l.args[0])));
        UnbindSettled(tb, AddrText(l.args[0]), Rest(l), n);
      } else if l.sig == WalletRecovered {
        RestSpares(l, IdentityKey(AddrText(l.args[0])));
        RecoverSettled(tb, AddrText(l.args[0]), AddrText(l.args[1]), l.block, Rest(l), n);
      }
    }
  }

  lemma LogSplit(tb: Table, l: Log)
    requires l.sig != NoTopics && LedgerOp(l).None? && l.sig != ForcedTransfer
    ensures LogWrites(tb, l) == RecordPart(tb, l) + Rest(l)
  {
  }

  lemma StopAtOnce(tb: Table, l: Log)
    ensures Repairs(tb, l, 0)
  {
    assert LogWrites(tb, l)[..0] == [];
  }

  /** Every log that does not move the ledger may be replayed. */
  lemma OtherLogsSafe(tb: Table, l: Log, n: nat)
    requires Typed(tb) && LedgerOp(l).None? && n <= |LogWrites(tb, l)|
    ensures Repairs(tb, l, n)
  {
    if n == 0 {
      StopAtOnce(tb, l);
    } else if l.sig == ForcedTransfer {
      SamePlan(tb, l, n);
    } else if l.sig != NoTopics {
      var mid := Stopped(tb, l, n);
      LogSplit(tb, l);
      LogSplit(mid, l);
      RecordSettled(tb, l, n);
      SettledRepairs(tb, RecordPart(tb, l), Rest(l), n, RecordPart(mid, l));
    }
  }

  // ---------- ledger logs ----------

  /** A transfer of nothing from an address to itself. */
  predicate Idle(op: Op) { op.Transfer? && op.from == op.to && op.amount == 0 }

  lemma StoppedTyped(tb: Table, l: Log, n: nat)
    requires Typed(tb) && Readable(l) && n <= |LogWrites(tb, l)|
    ensures Typed(Stopped(tb, l, n))
  {
    LogFits(tb, l);
    PartTyped(tb, LogWrites(tb, l), n);
  }

  lemma {:induction false} CursorAside(tb: Table, b: nat, u: Token)
    ensures AccountOf(ApplyAll(tb, [CursorWrite(b)]), u) == AccountOf(tb, u)
  {
    assert [CursorWrite(b)][..0] == [];
    var after := Apply(ApplyAll(tb, []), CursorWrite(b));
    assert HolderRows(after, u) == HolderRows(tb, u);
  }

  /** A ledger log is the ledger step on its token and nothing else on the accounts. */
  lemma {:induction false} LedgerLog(tb: Table, l: Log, u: Token)
    requires Typed(tb) && Readable(l) && LedgerOp(l).Some?
    ensures AccountOf(ApplyAll(tb, LogWrites(tb, l)), u) ==
      var op := LedgerOp(l).value;
      if u == op.token then Step(AccountOf(tb, u), op) else AccountOf(tb, u)
  {
    var op := LedgerOp(l).value;
    var ws := OpWrites(tb, op, l.Stamp());
    ApplyConcat(tb, ws, [CursorWrite(l.block)]);
    OpRefines(tb, op, l.Stamp(), u);
    CursorAside(ApplyAll(tb, ws), l.block, u);
  }

  lemma LogLength(tb: Table, l: Log)
    requires LedgerOp(l).Some?
    ensures |LogWrites(tb, l)| == if LedgerOp(l).value.Transfer? then 7 else 5
  {
    OpShape(tb, LedgerOp(l).value, l.Stamp());
  }

  /** After some of its writes a ledger log is that part of the ledger step on its token, and nothing else
      on the accounts. */
  lemma LedgerPartly(tb: Table, l: Log, n: nat, u: Token)
    requires Typed(tb) && Readable(l) && LedgerOp(l).Some? && n <= |LogWrites(tb, l)|
    ensures AccountOf(Stopped(tb, l, n), u) ==
      var op := LedgerOp(l).value;
      if u == op.token then Partly(AccountOf(tb, u), op, n) else AccountOf(tb, u)
  {
    var op := LedgerOp(l).value;
    var ws, all := OpWrites(tb, op, l.Stamp()), LogWrites(tb, l);
    LogLength(tb, l);
    assert all == ws + [CursorWrite(l.block)];
    if n < |all| {
      assert all[..n] == ws[..n];
      OpPartly(tb, op, l.Stamp(), n, u);
    } else {
      assert all[..n] == all;
      LedgerLog(tb, l, u);
    }
  }

  /** Exactly when a ledger log that was cut after `n` writes is repaired by handling it again. */
  lemma RepairsExactly(tb: Table, l: Log, n: nat)
    requires Typed(tb) && Readable(l) && LedgerOp(l).Some? && n <= |LogWrites(tb, l)|
    ensures var op := LedgerOp(l).value;
      Repairs(tb, l, n) <==>
      Mendable(op, n, BalanceOf(tb, op.token, First(op)), BalanceOf(tb, op.token, Last(op)))
  {
    var op := LedgerOp(l).value;
    var k, mid := AccountOf(tb, op.token), Stopped(tb, l, n);
    HolderRowsAt(tb, op.token, First(op));
    HolderRowsAt(tb, op.token, Last(op));
    AccountNonNegative(tb, op.token);
    MendableExactly(k, op, n);
    StoppedTyped(tb, l, n);
    LedgerPartly(tb, l, n, op.token);
    if Step(Partly(k, op, n), op) == Step(k, op) {
      PlanDecided(mid, tb, op, l.Stamp());
      SamePlan(tb, l, n);
    } else {
      LedgerLog(tb, l, op.token);
      LedgerLog(mid, l, op.token);
    }
  }

  // ---------- stops that do harm ----------

  function MintLog(token: nat, to: nat, data: seq<Byte>): Log { Log(Minted, [token, to], data, 0, 0, 0) }

  lemma {:induction false} MintLogBalance(tb: Table, token: nat, to: nat, data: seq<Byte>, a: Addr)
    requires Typed(tb) && |data| < TWO64
    ensures var m, t := MintLog(token, to, data), TokenText(token);
      var after := ApplyAll(tb, LogWrites(tb, m));
      && Readable(m) && Typed(after)
      && BalanceOf(after, t, a) == BalanceOf(tb, t, a) + if a == AddrText(to) then BigEndian(data) else 0
  {
    var m, t := MintLog(token, to, data), TokenText(token);
    LogTyped(tb, m);
    LedgerLog(tb, m, t);
    HolderRowsAt(tb, t, a);
    HolderRowsAt(ApplyAll(tb, LogWrites(tb, m)), t, a);
  }

  lemma {:induction false} HandledNext(tb: Table, logs: seq<Log>, l: Log)
    ensures HandleAll(tb, logs + [l]) == ApplyAll(HandleAll(tb, logs), LogWrites(HandleAll(tb, logs), l))
  {
    assert (logs + [l])[..|logs|] == logs;
  }

  lemma ReadableNext(logs: seq<Log>, l: Log)
    requires AllReadable(logs) && Readable(l)
    ensures AllReadable(logs + [l])
  {
  }

  /** One mint more at the end of a run. */
  lemma {:induction false} MintNext(logs: seq<Log>, token: nat, to: nat, data: seq<Byte>, a: Addr)
    requires AllReadable(logs) && Typed(HandleAll(map[], logs)) && |data| < TWO64
    ensures var more, t := logs + [MintLog(token, to, data)], TokenText(token);
      && AllReadable(more) && Typed(HandleAll(map[], more))
      && BalanceOf(HandleAll(map[], more), t, a) ==
           BalanceOf(HandleAll(map[], logs), t, a) + if a == AddrText(to) then BigEndian(data) else 0
  {
    MintLogBalance(HandleAll(map[], logs), token, to, data, a);
    HandledNext(map[], logs, MintLog(token, to, data));
    ReadableNext(logs, MintLog(token, to, data));
  }

  /** A store in which the receiver has one token and nobody else has any. */
  lemma OneMint(token: nat, to: nat, a: Addr) returns (logs: seq<Log>)
    requires a != AddrText(to)
    ensures AllReadable(logs) && Typed(HandleAll(map[], logs))
    ensures BalanceOf(HandleAll(map[], logs), TokenText(token), AddrText(to)) == 1
    ensures BalanceOf(HandleAll(map[], logs), TokenText(token), a) == 0
  {
    var data := WordBytes(1, 32);
    Word64(1);
    EmptyBalances(TokenText(token), AddrText(to));
    EmptyBalances(TokenText(token), a);
    MintNext([], token, to, data, AddrText(to));
    MintNext([], token, to, data, a);
    logs := [] + [MintLog(token, to, data)];
  }

  /** A store in which an address has twice what some data says. */
  lemma TwoMints(token: nat, to: nat, data: seq<Byte>) returns (logs: seq<Log>)
    requires |data| < TWO64
    ensures AllReadable(logs) && Typed(HandleAll(map[], logs))
    ensures BalanceOf(HandleAll(map[], logs), TokenText(token), AddrText(to)) == 2 * BigEndian(data)
  {
    var m := MintLog(token, to, data);
    EmptyBalances(TokenText(token), AddrText(to));
    MintNext([], token, to, data, AddrText(to));
    MintNext([] + [m], token, to, data, AddrText(to));
    logs := [] + [m] + [m];
  }

  lemma EmptyBalances(t: Token, a: Addr)
    ensures Typed(HandleAll(map[], [])) && BalanceOf(HandleAll(map[], []), t, a) == 0
  {
  }

  /** A run and a stop inside the log after which handling it again ends in the wrong place. */
  lemma Harmed(l: Log) returns (logs: seq<Log>, n: nat)
    requires Readable(l) && LedgerOp(l).Some? && !Idle(LedgerOp(l).value)
    ensures AllReadable(logs) && n < |LogWrites(HandleAll(map[], logs), l)|
    ensures !Repairs(HandleAll(map[], logs), l, n)
  {
    var op := LedgerOp(l).value;
    if !op.Transfer? || (op.from != op.to && op.amount > 0) {
      logs, n := [], 3;
      EmptyBalances(op.token, First(op));
      EmptyBalances(op.token, Last(op));
    } else if op.from != op.to {
      n := 5;
      logs := OneMint(Word(l.data, 0), l.args[2], op.from);
    } else {
      n := 1;
      logs := TwoMints(Word(l.data, 0), l.args[1], l.data[32..64]);
    }
    LogLength(HandleAll(map[], logs), l);
    RepairsExactly(HandleAll(map[], logs), l, n);
  }

  /** Which logs survive every stop and replay, exactly: all that do not move the ledger, and of those that
      do only a transfer of nothing to oneself. */
  lemma ReplaySafeExactly(l: Log)
    requires Readable(l)
    ensures ReplaySafe(l) <==> LedgerOp(l).None? || Idle(LedgerOp(l).value)
  {
    if LedgerOp(l).None? || Idle(LedgerOp(l).value) {
      forall logs: seq<Log>, n: nat | AllReadable(logs) && n < |LogWrites(HandleAll(map[], logs), l)|
        ensures Repairs(HandleAll(map[], logs), l, n)
      {
        HandledTyped(map[], logs);
        SafeAt(HandleAll(map[], logs), l, n);
      }
    } else {
      var logs, n := Harmed(l);
    }
  }

  /** These logs survive every stop in every store, reachable or not. */
  lemma SafeAt(tb: Table, l: Log, n: nat)
    requires Typed(tb) && Readable(l) && n <= |LogWrites(tb, l)|
    requires LedgerOp(l).None? || Idle(LedgerOp(l).value)
    ensures Repairs(tb, l, n)
  {
    if LedgerOp(l).None? { OtherLogsSafe(tb, l, n); } else { RepairsExactly(tb, l, n); }
  }
}
