/** The ledger rows of the store refine one account per token.

`AccountOf` reads a token's account out of the rows. Every recorded operation changes exactly the
account of its own token, as the ledger step does, and keeps the two holder tables transposed.
*/
module Accounts {
  import opened Keys
  import opened Rows
  import opened Ledger
  import opened Plans

  function HolderRows(tb: Table, t: Token): map<Addr, int> {
    map k | k in tb && k.HolderKey? && k.token == t && tb[k].Amount? :: k.addr := tb[k].n
  }

  function PortfolioRows(tb: Table, a: Addr): map<Token, int> {
    map k | k in tb && k.HolderAddrKey? && k.addr == a && tb[k].Amount? :: k.token := tb[k].n
  }

  function AccountOf(tb: Table, t: Token): Account {
    Account(MetaOf(tb, t).supply, MetaOf(tb, t).count, HolderRows(tb, t))
  }

  lemma HolderRowsAt(tb: Table, t: Token, a: Addr)
    requires Typed(tb)
    ensures a in HolderRows(tb, t) <==> HolderKey(t, a) in tb
    ensures a in HolderRows(tb, t) ==> Amount(HolderRows(tb, t)[a]) == tb[HolderKey(t, a)]
    ensures Balance(AccountOf(tb, t), a) == BalanceOf(tb, t, a)
  {
    if HolderKey(t, a) in tb { assert Fits(HolderKey(t, a), tb[HolderKey(t, a)]); }
  }

  lemma PortfolioRowsAt(tb: Table, a: Addr, t: Token)
    requires Typed(tb)
    ensures t in PortfolioRows(tb, a) <==> HolderAddrKey(a, t) in tb
    ensures t in PortfolioRows(tb, a) ==> Amount(PortfolioRows(tb, a)[t]) == tb[HolderAddrKey(a, t)]
  {
    if HolderAddrKey(a, t) in tb { assert Fits(HolderAddrKey(a, t), tb[HolderAddrKey(a, t)]); }
  }

  // ---------- single steps on the rows ----------

  /** `k` is what the rows say about the token. */
  ghost predicate Shows(tb: Table, t: Token, k: Account) {
    && MetaOf(tb, t).supply == k.supply && MetaOf(tb, t).count == k.count
    && ShowsRows(tb, t, k)
  }

  ghost predicate ShowsRows(tb: Table, t: Token, k: Account) {
    forall a: Addr :: ShowsAt(tb, t, k, a)
  }

  predicate ShowsAt(tb: Table, t: Token, k: Account, a: Addr) {
    && (HolderKey(t, a) in tb <==> a in k.rows)
    && (a in k.rows ==> tb[HolderKey(t, a)] == Amount(k.rows[a]))
  }

  lemma AccountNonNegative(tb: Table, t: Token)
    requires Typed(tb)
    ensures NonNegative(AccountOf(tb, t))
  {
    MetaToken(tb, t);
    forall a: Addr | a in HolderRows(tb, t) ensures HolderRows(tb, t)[a] >= 0 {
      HolderRowsAt(tb, t, a);
      BalanceNonNegative(tb, t, a);
    }
  }

  lemma AccountShown(tb: Table, t: Token)
    requires Typed(tb)
    ensures Shows(tb, t, AccountOf(tb, t))
  {
    forall a: Addr ensures ShowsAt(tb, t, AccountOf(tb, t), a) {
      HolderRowsAt(tb, t, a);
    }
  }

  lemma ShownUnique(tb: Table, t: Token, k: Account, l: Account)
    requires Shows(tb, t, k) && Shows(tb, t, l)
    ensures k == l
  {
    forall a: Addr ensures a in k.rows <==> a in l.rows {
      assert ShowsAt(tb, t, k, a) && ShowsAt(tb, t, l, a);
    }
    forall a | a in k.rows ensures k.rows[a] == l.rows[a] {
      assert ShowsAt(tb, t, k, a) && ShowsAt(tb, t, l, a);
    }
    assert k.rows == l.rows;
  }

  /** Rows that the ledger is read from. */
  predicate LedgerKey(k: Key) { k.MetaKey? || k.HolderKey? || k.HolderAddrKey? }

  /** Writes outside the ledger rows leave every account alone. */
  lemma {:induction false} OtherRows(tb: Table, ws: seq<Write>, t: Token, k: Account)
    requires Shows(tb, t, k)
    requires forall i :: 0 <= i < |ws| ==> !LedgerKey(ws[i].key)
    ensures Shows(ApplyAll(tb, ws), t, k)
  {
    ApplyElsewhere(tb, ws, MetaKey(t));
    forall a: Addr ensures ShowsAt(ApplyAll(tb, ws), t, k, a) {
      assert ShowsAt(tb, t, k, a);
      ApplyElsewhere(tb, ws, HolderKey(t, a));
    }
  }

  lemma {:induction false} ApplyTwo(tb: Table, u: Write, v: Write)
    ensures ApplyAll(tb, [u, v]) == Apply(Apply(tb, u), v)
  {
    assert [u, v][..1] == [u];
    assert [u][..0] == [];
    assert ApplyAll(tb, [u]) == Apply(ApplyAll(tb, []), u);
  }

  lemma BalanceShown(tb: Table, t: Token, k: Account, a: Addr)
    requires Shows(tb, t, k)
    ensures BalanceOf(tb, t, a) == Balance(k, a)
  {
    assert ShowsAt(tb, t, k, a);
  }

  lemma {:induction false} HolderPut(tb: Table, t: Token, a: Addr, n: int, u: Token, k: Account)
    requires Shows(tb, u, k)
    ensures Shows(ApplyAll(tb, PutHolder(t, a, n)), u, if u == t then k.(rows := k.rows[a := n]) else k)
  {
    ApplyTwo(tb, PutHolder(t, a, n)[0], PutHolder(t, a, n)[1]);
    var after, l := ApplyAll(tb, PutHolder(t, a, n)), if u == t then k.(rows := k.rows[a := n]) else k;
    forall b: Addr ensures ShowsAt(after, u, l, b) { assert ShowsAt(tb, u, k, b); }
  }

  lemma {:induction false} HolderDropped(tb: Table, t: Token, a: Addr, u: Token, k: Account)
    requires Shows(tb, u, k)
    ensures Shows(ApplyAll(tb, DropHolder(t, a)), u, if u == t then k.(rows := k.rows - {a}) else k)
  {
    ApplyTwo(tb, DropHolder(t, a)[0], DropHolder(t, a)[1]);
    var after, l := ApplyAll(tb, DropHolder(t, a)), if u == t then k.(rows := k.rows - {a}) else k;
    forall b: Addr ensures ShowsAt(after, u, l, b) { assert ShowsAt(tb, u, k, b); }
  }

  /** The holder rows after a debit or a credit are those of the ledger; the metadata waits. */
  lemma {:induction false} DebitShown(tb: Table, t: Token, a: Addr, n: nat, u: Token, k: Account)
    requires Shows(tb, u, k)
    ensures Shows(ApplyAll(tb, DebitWrites(tb, t, a, n)), u,
                  if u == t then k.(rows := Debit(k, a, n).rows) else k)
  {
    HolderPut(tb, t, a, BalanceOf(tb, t, a) - n, u, k);
    HolderDropped(tb, t, a, u, k);
    if u == t { BalanceShown(tb, t, k, a); }
  }

  lemma {:induction false} CreditShown(tb: Table, t: Token, a: Addr, n: nat, u: Token, k: Account)
    requires Shows(tb, u, k)
    ensures Shows(ApplyAll(tb, CreditWrites(tb, t, a, n)), u,
                  if u == t then k.(rows := Credit(k, a, n).rows) else k)
  {
    HolderPut(tb, t, a, BalanceOf(tb, t, a) + n, u, k);
    if u == t { BalanceShown(tb, t, k, a); }
  }

  lemma {:induction false} HolderPart(tb: Table, op: Op, u: Token, k: Account)
    requires Shows(tb, u, k)
    ensures Shows(ApplyAll(tb, HolderWrites(tb, op)), u,
                  if u == op.token then k.(rows := Step(k, op).rows) else k)
  {
    match op
    case Mint(t, to, n) => CreditShown(tb, t, to, n, u, k);
    case Burn(t, from, n) => DebitShown(tb, t, from, n, u, k);
    case Transfer(t, from, to, n) =>
      var debit := DebitWrites(tb, t, from, n);
      var mid := ApplyAll(tb, debit);
      ApplyConcat(tb, debit, CreditWrites(mid, t, to, n));
      DebitShown(tb, t, from, n, u, k);
      CreditShown(mid, t, to, n, u, if u == t then k.(rows := Debit(k, from, n).rows) else k);
  }

  lemma MetaPart(tb: Table, op: Op, k: Account)
    requires Typed(tb) && Shows(tb, op.token, k)
    ensures NewMeta(tb, op) == TokenMeta(op.token, Step(k, op).supply, Step(k, op).count)
  {
    var t := op.token;
    MetaToken(tb, t);
    match op
    case Mint(_, to, n) => BalanceShown(tb, t, k, to);
    case Burn(_, from, n) => BalanceShown(tb, t, k, from);
    case Transfer(_, from, to, n) =>
      BalanceShown(tb, t, k, from);
      DebitShown(tb, t, from, n, t, k);
      BalanceShown(ApplyAll(tb, DebitWrites(tb, t, from, n)), t,
                   k.(rows := Debit(k, from, n).rows), to);
  }

  lemma {:induction false} OpShows(tb: Table, op: Op, st: Stamp, u: Token, k: Account)
    requires Typed(tb) && Shows(tb, u, k)
    ensures Shows(ApplyAll(tb, OpWrites(tb, op, st)), u, if u == op.token then Step(k, op) else k)
  {
    HolderPart(tb, op, u, k);
    MetaToken(tb, op.token);
    if u == op.token { MetaPart(tb, op, k); }
    var mid := ApplyAll(tb, HolderWrites(tb, op));
    ApplyConcat(tb, HolderWrites(tb, op), [MetaWrite(NewMeta(tb, op)), EventWrite(OpEvent(op, st))]);
    ClosingWrites(mid, NewMeta(tb, op), OpEvent(op, st), u,
                  if u == op.token then k.(rows := Step(k, op).rows) else k);
  }

  /** The metadata write sets supply and counter of its token; the event write sets neither. */
  lemma {:induction false} ClosingWrites(mid: Table, m: TokenMeta, e: TransferEvent, u: Token, k: Account)
    requires Shows(mid, u, k)
    ensures Shows(ApplyAll(mid, [MetaWrite(m), EventWrite(e)]), u,
                  if u == m.token then Account(m.supply, m.count, k.rows) else k)
  {
    ApplyTwo(mid, MetaWrite(m), EventWrite(e));
    var after := ApplyAll(mid, [MetaWrite(m), EventWrite(e)]);
    var l := if u == m.token then Account(m.supply, m.count, k.rows) else k;
    forall b: Addr ensures ShowsAt(after, u, l, b) { assert ShowsAt(mid, u, k, b); }
  }

  /** A recorded operation is the ledger step on its own token and nothing on any other. */
  lemma {:induction false} OpRefines(tb: Table, op: Op, st: Stamp, u: Token)
    requires Typed(tb)
    ensures AccountOf(ApplyAll(tb, OpWrites(tb, op, st)), u) ==
      if u == op.token then Step(AccountOf(tb, u), op) else AccountOf(tb, u)
  {
    AccountShown(tb, u);
    OpShows(tb, op, st, u, AccountOf(tb, u));
    OpFits(tb, op, st);
    ApplyTyped(tb, OpWrites(tb, op, st));
    var after := ApplyAll(tb, OpWrites(tb, op, st));
    AccountShown(after, u);
    ShownUnique(after, u, AccountOf(after, u),
                if u == op.token then Step(AccountOf(tb, u), op) else AccountOf(tb, u));
  }

  // ---------- operations cut short ----------

  /** A write that no account is read from. */
  predicate Unread(w: Write) { !w.key.MetaKey? && !w.key.HolderKey? }

  lemma {:induction false} UnreadWrite(tb: Table, ws: seq<Write>, n: nat, u: Token, k: Account)
    requires n < |ws| && Unread(ws[n])
    ensures Shows(ApplyAll(tb, ws[..n + 1]), u, k) <==> Shows(ApplyAll(tb, ws[..n]), u, k)
  {
    var before, after := ApplyAll(tb, ws[..n]), ApplyAll(tb, ws[..n + 1]);
    assert ws[..n + 1][..n] == ws[..n];
    assert after == Apply(before, ws[n]);
    forall a: Addr ensures ShowsAt(after, u, k, a) <==> ShowsAt(before, u, k, a) { }
  }

  /** The shape of the writes: two for each holder row, the metadata, the event. */
  lemma OpShape(tb: Table, op: Op, st: Stamp)
    ensures var ws := OpWrites(tb, op, st);
      && |ws| == (if op.Transfer? then 6 else 4)
      && Unread(ws[1]) && Unread(ws[|ws| - 1]) && (op.Transfer? ==> Unread(ws[3]))
  {
  }

  lemma OpCuts(tb: Table, op: Op, st: Stamp)
    ensures var ws := OpWrites(tb, op, st); var h := HolderWrites(tb, op);
      && |h| == (if op.Transfer? then 4 else 2) && ws[..|h|] == h && ws[..|ws|] == ws
      && (op.Transfer? ==> ws[..2] == DebitWrites(tb, op.token, op.from, op.amount))
  {
  }

  /** After the holder rows, or after the debit alone, the metadata is still the old one. */
  lemma {:induction false} RowsFirst(tb: Table, op: Op, st: Stamp, n: nat, u: Token, k: Account)
    requires Typed(tb) && Shows(tb, u, k)
    requires n == 0 || n == 2 || (op.Transfer? && n == 4)
    ensures n <= |OpWrites(tb, op, st)|
    ensures Shows(ApplyAll(tb, OpWrites(tb, op, st)[..n]), u, if u == op.token then Partly(k, op, n) else k)
  {
    OpCuts(tb, op, st);
    if n == 0 {
      assert OpWrites(tb, op, st)[..0] == [];
    } else if op.Transfer? && n == 2 {
      DebitShown(tb, op.token, op.from, op.amount, u, k);
    } else {
      HolderPart(tb, op, u, k);
    }
  }

  lemma {:induction false} PartlyShows(tb: Table, op: Op, st: Stamp, n: nat, u: Token, k: Account)
    requires Typed(tb) && Shows(tb, u, k) && n <= |OpWrites(tb, op, st)|
    ensures Shows(ApplyAll(tb, OpWrites(tb, op, st)[..n]), u, if u == op.token then Partly(k, op, n) else k)
  {
    OpShape(tb, op, st);
    if n == 0 || n == 2 || (op.Transfer? && n == 4) {
      RowsFirst(tb, op, st, n, u, k);
    } else if n == 1 || (op.Transfer? && n == 3) {
      RowsFirst(tb, op, st, n + 1, u, k);
      assert Partly(k, op, n) == Partly(k, op, n + 1);
      UnreadWrite(tb, OpWrites(tb, op, st), n, u, if u == op.token then Partly(k, op, n + 1) else k);
    } else {
      assert Partly(k, op, n) == Step(k, op);
      StepShown(tb, op, st, n, u, k);
    }
  }

  /** From the metadata write on, the step is there. */
  lemma {:induction false} StepShown(tb: Table, op: Op, st: Stamp, n: nat, u: Token, k: Account)
    requires Typed(tb) && Shows(tb, u, k)
    requires |OpWrites(tb, op, st)| - 1 <= n <= |OpWrites(tb, op, st)|
    ensures Shows(ApplyAll(tb, OpWrites(tb, op, st)[..n]), u, if u == op.token then Step(k, op) else k)
  {
    var ws := OpWrites(tb, op, st);
    OpShape(tb, op, st);
    OpShows(tb, op, st, u, k);
    assert ws[..|ws|] == ws;
    if n < |ws| { UnreadWrite(tb, ws, n, u, if u == op.token then Step(k, op) else k); }
  }

  lemma {:induction false} PartTyped(tb: Table, ws: seq<Write>, n: nat)
    requires Typed(tb) && AllFit(ws) && n <= |ws|
    ensures Typed(ApplyAll(tb, ws[..n]))
  {
    forall i | 0 <= i < n ensures ws[..n][i].Fit() { assert ws[i].Fit(); }
    ApplyTyped(tb, ws[..n]);
  }

  /** Some writes of a recorded operation are that part of the ledger step on its own token, and nothing
      on any other. */
  lemma {:induction false} OpPartly(tb: Table, op: Op, st: Stamp, n: nat, u: Token)
    requires Typed(tb) && n <= |OpWrites(tb, op, st)|
    ensures AccountOf(ApplyAll(tb, OpWrites(tb, op, st)[..n]), u) ==
      if u == op.token then Partly(AccountOf(tb, u), op, n) else AccountOf(tb, u)
  {
    var part := ApplyAll(tb, OpWrites(tb, op, st)[..n]);
    AccountShown(tb, u);
    PartlyShows(tb, op, st, n, u, AccountOf(tb, u));
    OpFits(tb, op, st);
    PartTyped(tb, OpWrites(tb, op, st), n);
    AccountShown(part, u);
    ShownUnique(part, u, AccountOf(part, u),
                if u == op.token then Partly(AccountOf(tb, u), op, n) else AccountOf(tb, u));
  }

  /** What an operation writes is decided by the account it leads to. */
  lemma PlanDecided(s: Table, t: Table, op: Op, st: Stamp)
    requires Typed(s) && Typed(t)
    requires Step(AccountOf(s, op.token), op) == Step(AccountOf(t, op.token), op)
    ensures OpWrites(s, op, st) == OpWrites(t, op, st)
  {
    var k, l := AccountOf(s, op.token), AccountOf(t, op.token);
    AccountShown(s, op.token);
    AccountShown(t, op.token);
    MetaPart(s, op, k);
    MetaPart(t, op, l);
    HoldersDecided(s, t, op);
  }

  lemma HoldersDecided(s: Table, t: Table, op: Op)
    requires Typed(s) && Typed(t)
    requires Step(AccountOf(s, op.token), op).rows == Step(AccountOf(t, op.token), op).rows
    ensures HolderWrites(s, op) == HolderWrites(t, op)
  {
    HoldersFromRows(s, op);
    HoldersFromRows(t, op);
  }

  /** The holder writes, read off the rows the step leads to. */
  function WritesTo(op: Op, rows: map<Addr, int>): seq<Write> {
    match op
    case Mint(t, to, _) => CreditTo(t, to, rows)
    case Burn(t, from, _) => DebitTo(t, from, rows, 0)
    case Transfer(t, from, to, x) => DebitTo(t, from, rows, if from == to then x else 0) + CreditTo(t, to, rows)
  }

  function CreditTo(t: Token, a: Addr, rows: map<Addr, int>): seq<Write> {
    if a in rows then PutHolder(t, a, rows[a]) else []
  }

  /** The debit, when the row has since been credited some amount. */
  function DebitTo(t: Token, a: Addr, rows: map<Addr, int>, since: nat): seq<Write> {
    if a in rows && rows[a] > since then PutHolder(t, a, rows[a] - since) else DropHolder(t, a)
  }

  lemma DebitDecided(tb: Table, t: Token, a: Addr, x: nat, rows: map<Addr, int>, since: nat)
    requires var left := BalanceOf(tb, t, a) - x;
      if left <= 0 then a !in rows || rows[a] <= since else a in rows && rows[a] == left + since
    ensures DebitWrites(tb, t, a, x) == DebitTo(t, a, rows, since)
  {
  }

  lemma HoldersFromRows(tb: Table, op: Op)
    requires Typed(tb)
    ensures HolderWrites(tb, op) == WritesTo(op, Step(AccountOf(tb, op.token), op).rows)
  {
    match op
    case Mint(_, _, _) => MintFromRows(tb, op);
    case Burn(_, _, _) => BurnFromRows(tb, op);
    case Transfer(_, _, _, _) => TransferFromRows(tb, op);
  }

  lemma MintFromRows(tb: Table, op: Op)
    requires Typed(tb) && op.Mint?
    ensures HolderWrites(tb, op) == WritesTo(op, Step(AccountOf(tb, op.token), op).rows)
  {
    HolderRowsAt(tb, op.token, op.to);
  }

  lemma BurnFromRows(tb: Table, op: Op)
    requires Typed(tb) && op.Burn?
    ensures HolderWrites(tb, op) == WritesTo(op, Step(AccountOf(tb, op.token), op).rows)
  {
    HolderRowsAt(tb, op.token, op.from);
    DebitDecided(tb, op.token, op.from, op.amount, Step(AccountOf(tb, op.token), op).rows, 0);
  }

  lemma TransferFromRows(tb: Table, op: Op)
    requires Typed(tb) && op.Transfer?
    ensures HolderWrites(tb, op) == WritesTo(op, Step(AccountOf(tb, op.token), op).rows)
  {
    var t, k := op.token, AccountOf(tb, op.token);
    var debited, rows := Debit(k, op.from, op.amount), Step(k, op).rows;
    var mid := ApplyAll(tb, DebitWrites(tb, t, op.from, op.amount));
    HolderRowsAt(tb, t, op.from);
    AccountShown(tb, t);
    DebitShown(tb, t, op.from, op.amount, t, k);
    BalanceShown(mid, t, k.(rows := debited.rows), op.to);
    assert op.to in rows && rows[op.to] == Balance(debited, op.to) + op.amount;
    DebitDecided(tb, t, op.from, op.amount, rows, if op.from == op.to then op.amount else 0);
    assert CreditWrites(mid, t, op.to, op.amount) == CreditTo(t, op.to, rows);
  }

  // ---------- the two holder tables ----------

  predicate TransposedAt(tb: Table, t: Token, a: Addr) {
    && (HolderKey(t, a) in tb <==> HolderAddrKey(a, t) in tb)
    && (HolderKey(t, a) in tb ==> tb[HolderKey(t, a)] == tb[HolderAddrKey(a, t)])
  }

  /** The table by token and the table by address hold the same balances. */
  ghost predicate Transposed(tb: Table) {
    forall t: Token, a: Addr :: TransposedAt(tb, t, a)
  }

  lemma {:induction false} TransposedElsewhere(tb: Table, ws: seq<Write>)
    requires Transposed(tb)
    requires forall i :: 0 <= i < |ws| ==> !ws[i].key.HolderKey? && !ws[i].key.HolderAddrKey?
    ensures Transposed(ApplyAll(tb, ws))
  {
    forall t: Token, a: Addr ensures TransposedAt(ApplyAll(tb, ws), t, a) {
      assert TransposedAt(tb, t, a);
      ApplyElsewhere(tb, ws, HolderKey(t, a));
      ApplyElsewhere(tb, ws, HolderAddrKey(a, t));
    }
  }

  lemma {:induction false} TransposedPut(tb: Table, t: Token, a: Addr, n: int)
    requires Transposed(tb)
    ensures Transposed(ApplyAll(tb, PutHolder(t, a, n)))
  {
    ApplyTwo(tb, PutHolder(t, a, n)[0], PutHolder(t, a, n)[1]);
    forall u: Token, b: Addr ensures TransposedAt(ApplyAll(tb, PutHolder(t, a, n)), u, b) {
      assert TransposedAt(tb, u, b);
    }
  }

  lemma {:induction false} TransposedDrop(tb: Table, t: Token, a: Addr)
    requires Transposed(tb)
    ensures Transposed(ApplyAll(tb, DropHolder(t, a)))
  {
    ApplyTwo(tb, DropHolder(t, a)[0], DropHolder(t, a)[1]);
    forall u: Token, b: Addr ensures TransposedAt(ApplyAll(tb, DropHolder(t, a)), u, b) {
      assert TransposedAt(tb, u, b);
    }
  }

  lemma {:induction false} TransposedDebit(tb: Table, t: Token, a: Addr, n: nat)
    requires Transposed(tb)
    ensures Transposed(ApplyAll(tb, DebitWrites(tb, t, a, n)))
  {
    TransposedPut(tb, t, a, BalanceOf(tb, t, a) - n);
    TransposedDrop(tb, t, a);
  }

  lemma {:induction false} TransposedHolders(tb: Table, op: Op)
    requires Transposed(tb)
    ensures Transposed(ApplyAll(tb, HolderWrites(tb, op)))
  {
    match op
    case Mint(t, to, n) => TransposedPut(tb, t, to, BalanceOf(tb, t, to) + n);
    case Burn(t, from, n) => TransposedDebit(tb, t, from, n);
    case Transfer(t, from, to, n) =>
      var debit := DebitWrites(tb, t, from, n);
      var mid := ApplyAll(tb, debit);
      TransposedDebit(tb, t, from, n);
      TransposedPut(mid, t, to, BalanceOf(mid, t, to) + n);
      ApplyConcat(tb, debit, CreditWrites(mid, t, to, n));
  }

  /** Every recorded operation keeps the two tables transposed. */
  lemma {:induction false} TransposedOp(tb: Table, op: Op, st: Stamp)
    requires Transposed(tb)
    ensures Transposed(ApplyAll(tb, OpWrites(tb, op, st)))
  {
    var last := [MetaWrite(NewMeta(tb, op)), EventWrite(OpEvent(op, st))];
    ApplyConcat(tb, HolderWrites(tb, op), last);
    TransposedHolders(tb, op);
    TransposedElsewhere(ApplyAll(tb, HolderWrites(tb, op)), last);
  }
}
