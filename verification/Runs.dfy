/** What a session makes of the store.

Apart from the row of the cursor, the rows a session leaves are those of handling its logs one
after the other: polling past empty blocks, and where the cursor stood, make no difference.
*/
module Runs {
  import opened Keys
  import opened Rows
  import opened Ledger
  import opened Plans
  import opened Accounts
  import opened Logs
  import opened Listings
  import opened Replay
  import opened EventStream
  import opened Sessions

  /** The same rows, the cursor aside. */
  ghost predicate SameButCursor(s: Table, t: Table) {
    forall k {:trigger Agree(s, t, k)} :: k != CursorKey ==> Agree(s, t, k)
  }

  lemma {:induction false} StaysSame(s: Table, t: Table, ws: seq<Write>)
    requires SameButCursor(s, t)
    ensures SameButCursor(ApplyAll(s, ws), ApplyAll(t, ws))
  {
    forall k | k != CursorKey ensures Agree(ApplyAll(s, ws), ApplyAll(t, ws), k) {
      assert Agree(s, t, k);
      LastWriteWins(s, t, ws, k);
    }
  }

  lemma SameMoney(s: Table, t: Table, u: Token, a: Addr)
    requires SameButCursor(s, t)
    ensures MetaOf(s, u) == MetaOf(t, u) && BalanceOf(s, u, a) == BalanceOf(t, u, a)
  {
    assert Agree(s, t, MetaKey(u)) && Agree(s, t, HolderKey(u, a));
  }

  lemma SameOpWrites(s: Table, t: Table, op: Op, st: Stamp)
    requires SameButCursor(s, t)
    ensures OpWrites(s, op, st) == OpWrites(t, op, st)
  {
    SameParts(s, t, op);
  }

  lemma SameParts(s: Table, t: Table, op: Op)
    requires SameButCursor(s, t)
    ensures HolderWrites(s, op) == HolderWrites(t, op) && NewMeta(s, op) == NewMeta(t, op)
  {
    match op
    case Mint(u, to, _) => SameMoney(s, t, u, to);
    case Burn(u, from, _) => SameMoney(s, t, u, from);
    case Transfer(u, from, to, n) => SameTransfer(s, t, u, from, to, n);
  }

  lemma SameTransfer(s: Table, t: Table, u: Token, from: Addr, to: Addr, n: nat)
    requires SameButCursor(s, t)
    ensures var op := Transfer(u, from, to, n);
      HolderWrites(s, op) == HolderWrites(t, op) && NewMeta(s, op) == NewMeta(t, op)
  {
    var debit := DebitWrites(s, u, from, n);
    SameMoney(s, t, u, from);
    StaysSame(s, t, debit);
    SameMoney(ApplyAll(s, debit), ApplyAll(t, debit), u, to);
  }

  lemma SameIdentity(s: Table, t: Table, w: Addr)
    requires SameButCursor(s, t)
    ensures IdentityOf(s, w) == IdentityOf(t, w)
  {
    assert Agree(s, t, IdentityKey(w));
  }

  lemma SameRecover(s: Table, t: Table, lost: Addr, next: Addr, block: nat)
    requires SameButCursor(s, t)
    ensures RecoverWrites(s, lost, next, block) == RecoverWrites(t, lost, next, block)
  {
    SameIdentity(s, t, lost);
    if IdentityOf(s, lost).Some? {
      var id := IdentityOf(s, lost).value;
      var bind := BindWrites(Identity(next, id.identity, id.country, block));
      StaysSame(s, t, bind);
      SameIdentity(ApplyAll(s, bind), ApplyAll(t, bind), lost);
    }
  }

  lemma SameUpdate(s: Table, t: Table, l: Log)
    requires SameButCursor(s, t) && IsUpdate(l.sig) && |l.args| >= RecordNeeds(l.sig)
    ensures RecordWrites(s, l) == RecordWrites(t, l)
  {
    if l.sig == PartialFreeze || l.sig == LockupSet {
      assert Agree(s, t, FreezeKey(AddrText(l.args[1]), TokenText(l.args[0])));
    } else {
      assert Agree(s, t, AssetKey(TokenText(l.args[0])));
    }
  }

  lemma SameRecord(s: Table, t: Table, l: Log)
    requires SameButCursor(s, t)
    ensures RecordPart(s, l) == RecordPart(t, l)
  {
    if |l.args| >= RecordNeeds(l.sig) {
      if l.sig == WalletRecovered {
        SameRecover(s, t, AddrText(l.args[0]), AddrText(l.args[1]), l.block);
      } else if l.sig == IdentityUnbound {
        SameIdentity(s, t, AddrText(l.args[0]));
      } else if IsUpdate(l.sig) {
        SameUpdate(s, t, l);
      }
    }
  }

  /** What a log writes does not depend on the cursor. */
  lemma SameLogWrites(s: Table, t: Table, l: Log)
    requires SameButCursor(s, t)
    ensures LogWrites(s, l) == LogWrites(t, l)
  {
    if LedgerOp(l).Some? {
      SameOpWrites(s, t, LedgerOp(l).value, l.Stamp());
    } else {
      SameRecord(s, t, l);
    }
  }

  lemma {:induction false} CursorMoved(tb: Table, b: nat)
    ensures SameButCursor(ApplyAll(tb, [CursorWrite(b)]), tb)
  {
    forall k | k != CursorKey ensures Agree(ApplyAll(tb, [CursorWrite(b)]), tb, k) {
      ApplyElsewhere(tb, [CursorWrite(b)], k);
    }
  }

  lemma SameThrough(s: Table, t: Table, u: Table)
    requires SameButCursor(s, t) && SameButCursor(t, u)
    ensures SameButCursor(s, u)
  {
    forall k | k != CursorKey ensures Agree(s, u, k) {
      assert Agree(s, t, k) && Agree(t, u, k);
    }
  }

  /** A session leaves the rows that handling its logs leaves. */
  lemma {:induction false} SessionHandles(tb: Table, acts: seq<Act>)
    ensures SameButCursor(Effect(Handling(), tb, acts), HandleAll(tb, Delivered(acts)))
  {
    if acts != [] {
      var init := acts[..|acts| - 1];
      var mid, plain := Effect(Handling(), tb, init), HandleAll(tb, Delivered(init));
      SessionHandles(tb, init);
      match acts[|acts| - 1]
      case Deliver(l) =>
        SameLogWrites(mid, plain, l);
        StaysSame(mid, plain, LogWrites(mid, l));
        HandledNext(tb, Delivered(init), l);
      case Advance(b) =>
        CursorMoved(mid, b);
        SameThrough(ApplyAll(mid, [CursorWrite(b)]), mid, plain);
    }
  }

  lemma SameAccount(s: Table, t: Table, u: Token)
    requires SameButCursor(s, t)
    ensures AccountOf(s, u) == AccountOf(t, u)
  {
    assert Agree(s, t, MetaKey(u));
    forall a: Addr ensures Agree(s, t, HolderKey(u, a)) { }
  }

  /** So the accounts after a session are those the plain ledger reaches on the operations its logs
      stand for. */
  lemma {:induction false} SessionAccounts(tb: Table, acts: seq<Act>, u: Token)
    requires Typed(tb) && AllReadable(Delivered(acts))
    ensures AccountOf(Effect(Handling(), tb, acts), u) ==
      Run(AccountOf(tb, u), OnToken(OpsOf(Delivered(acts)), u))
  {
    SessionHandles(tb, acts);
    SameAccount(Effect(Handling(), tb, acts), HandleAll(tb, Delivered(acts)), u);
    HandledRuns(tb, Delivered(acts), u);
  }

  /** After positive covered operations from an empty store, the stored holder count of a token is the
      length of its holder listing. */
  lemma {:induction false} HolderCountListed(logs: seq<Log>, u: Token)
    requires AllReadable(logs)
    requires Solvent(OnToken(OpsOf(logs), u)) && |OnToken(OpsOf(logs), u)| < TWO64
    ensures var tb := HandleAll(map[], logs);
      MetaOf(tb, u).count == |HolderList(HolderRows(tb, u))|
  {
    assert AccountOf(map[], u) == EMPTY;
    HandledRuns(map[], logs, u);
    HolderCountExact(OnToken(OpsOf(logs), u));
  }
}
