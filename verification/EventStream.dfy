/** From paired contract events to ledger operations.

The contract reports a mint, a burn or a forced transfer twice: once by its own event and once by
the transfer event of the multi-token standard. Handling the whole stream moves each account by
each operation exactly once, however the paired and unrelated logs are interleaved.
*/
module EventStream {
  import opened Numerals
  import opened Keys
  import opened Rows
  import opened Ledger
  import opened Plans
  import opened Abi
  import opened Accounts
  import opened Logs
  import opened Replay

  /** Handling a log is the ledger step of its operation, if it has one, and nothing else. */
  lemma {:induction false} LogRefines(tb: Table, l: Log, u: Token)
    requires Typed(tb) && Readable(l)
    ensures AccountOf(ApplyAll(tb, LogWrites(tb, l)), u) ==
      if LedgerOp(l).Some? && LedgerOp(l).value.token == u
      then Step(AccountOf(tb, u), LedgerOp(l).value) else AccountOf(tb, u)
  {
    if LedgerOp(l).Some? {
      LedgerLog(tb, l, u);
    } else {
      QuietLog(tb, l);
      AccountShown(tb, u);
      OtherRows(tb, LogWrites(tb, l), u, AccountOf(tb, u));
      LogTyped(tb, l);
      var after := ApplyAll(tb, LogWrites(tb, l));
      AccountShown(after, u);
      ShownUnique(after, u, AccountOf(after, u), AccountOf(tb, u));
    }
  }

  /** A log without a ledger operation writes no ledger row. */
  lemma QuietLog(tb: Table, l: Log)
    requires LedgerOp(l).None?
    ensures forall i :: 0 <= i < |LogWrites(tb, l)| ==> !LedgerKey(LogWrites(tb, l)[i].key)
  {
    if l.sig != NoTopics && l.sig != ForcedTransfer {
      LogSplit(tb, l);
      QuietRecord(tb, l);
      QuietRest(l);
    }
  }

  lemma QuietRest(l: Log)
    ensures forall i :: 0 <= i < |Rest(l)| ==> !LedgerKey(Rest(l)[i].key)
  {
  }

  lemma QuietRecord(tb: Table, l: Log)
    ensures forall i :: 0 <= i < |RecordPart(tb, l)| ==> !LedgerKey(RecordPart(tb, l)[i].key)
  {
    RecordKeys(tb, l);
  }

  /** The operations a list of logs stands for, in order. */
  function OpsOf(logs: seq<Log>): seq<Op> {
    if logs == [] then []
    else
      var ops := OpsOf(logs[..|logs| - 1]);
      match LedgerOp(logs[|logs| - 1]) case Some(op) => ops + [op] case None => ops
  }

  /** The operations on one token. */
  function OnToken(ops: seq<Op>, t: Token): seq<Op> {
    if ops == [] then []
    else
      var prior := OnToken(ops[..|ops| - 1], t);
      if ops[|ops| - 1].token == t then prior + [ops[|ops| - 1]] else prior
  }

  lemma {:induction false} RunSnoc(k: Account, ops: seq<Op>, op: Op, u: Token)
    ensures Run(k, OnToken(ops + [op], u)) ==
      if op.token == u then Step(Run(k, OnToken(ops, u)), op) else Run(k, OnToken(ops, u))
  {
    assert (ops + [op])[..|ops|] == ops;
    var mine := OnToken(ops, u);
    assert (mine + [op])[..|mine|] == mine;
  }

  /** Handling logs runs each token's ledger on that token's operations. */
  lemma {:induction false} HandledRuns(tb: Table, logs: seq<Log>, u: Token)
    requires Typed(tb) && AllReadable(logs)
    ensures AccountOf(HandleAll(tb, logs), u) == Run(AccountOf(tb, u), OnToken(OpsOf(logs), u))
  {
    if logs != [] {
      var m := |logs| - 1;
      HandledRuns(tb, logs[..m], u);
      HandledTyped(tb, logs[..m]);
      LogRefines(HandleAll(tb, logs[..m]), logs[m], u);
      if LedgerOp(logs[m]).Some? {
        RunSnoc(AccountOf(tb, u), OpsOf(logs[..m]), LedgerOp(logs[m]).value, u);
      }
    }
  }

  // ---------- what the contract emits ----------

  /** An operation of the token contract, on 256-bit words and 160-bit addresses. */
  datatype Action =
    | DoMint(token: nat, to: nat, amount: nat)
    | DoBurn(token: nat, from: nat, amount: nat)
    | DoForced(token: nat, from: nat, to: nat, amount: nat)
    | DoTransfer(token: nat, from: nat, to: nat, amount: nat)

  predicate IsAccount(a: nat) { 0 < a < ADDRESSES }

  /** Words and addresses in range; only mints and burns involve the zero address. */
  predicate WellFormed(x: Action) {
    && x.token < WORDS && x.amount < WORDS
    && match x
       case DoMint(_, to, _) => IsAccount(to)
       case DoBurn(_, from, _) => IsAccount(from)
       case DoForced(_, from, to, _) => IsAccount(from) && IsAccount(to)
       case DoTransfer(_, from, to, _) => IsAccount(from) && IsAccount(to)
  }

  /** The operation it is on the ledger. */
  function Meaning(x: Action): Op {
    match x
    case DoMint(t, to, n) => Mint(TokenText(t), AddrText(to), n)
    case DoBurn(t, from, n) => Burn(TokenText(t), AddrText(from), n)
    case DoForced(t, from, to, n) => Transfer(TokenText(t), AddrText(from), AddrText(to), n)
    case DoTransfer(t, from, to, n) => Transfer(TokenText(t), AddrText(from), AddrText(to), n)
  }

  /** TransferSingle(operator, from, to, id, value). */
  predicate IsTransferSingle(l: Log, from: nat, to: nat, t: nat, n: nat) {
    l.sig == TransferSingle && |l.args| == 3 && l.args[1] == from && l.args[2] == to &&
    l.data == WordBytes(t, 32) + WordBytes(n, 32)
  }

  /** The standard's transfer event for an action. */
  predicate IsStandard(l: Log, x: Action) {
    match x
    case DoMint(t, to, n) => IsTransferSingle(l, 0, to, t, n)
    case DoBurn(t, from, n) => IsTransferSingle(l, from, 0, t, n)
    case DoForced(t, from, to, n) => IsTransferSingle(l, from, to, t, n)
    case DoTransfer(t, from, to, n) => IsTransferSingle(l, from, to, t, n)
  }

  /** The contract's own event for an action; a plain transfer has none. */
  predicate IsOwn(l: Log, x: Action) {
    match x
    case DoMint(t, to, n) =>
      l.sig == Minted && |l.args| == 2 && l.args[0] == t && l.args[1] == to && l.data == WordBytes(n, 32)
    case DoBurn(t, from, n) =>
      l.sig == Burned && |l.args| == 2 && l.args[0] == t && l.args[1] == from && l.data == WordBytes(n, 32)
    case DoForced(t, from, to, n) =>
      l.sig == ForcedTransfer && |l.args| == 3 && l.args[0] == t && l.args[1] == from && l.args[2] == to &&
      |l.data| >= 32 && l.data[..32] == WordBytes(n, 32)
    case DoTransfer(_, _, _, _) => false
  }

  /** The log that carries the balance change, and the other one of the pair. */
  predicate IsCarrier(l: Log, x: Action) {
    if x.DoMint? || x.DoBurn? then IsOwn(l, x) else IsStandard(l, x)
  }

  predicate IsCompanion(l: Log, x: Action) {
    if x.DoMint? || x.DoBurn? then IsStandard(l, x) else IsOwn(l, x)
  }

  /** A log that is no token event. */
  predicate IsOther(l: Log) {
    l.sig != Minted && l.sig != Burned && l.sig != ForcedTransfer && l.sig != TransferSingle
  }

  /** An emission of a list of actions: the carriers in the order of the actions, one companion for
      each action that has one, and any other logs, interleaved in any way. `open` are the actions
      whose companion has not been placed yet, reading from the back. */
  predicate Interleaved(xs: seq<Action>, open: multiset<Action>, logs: seq<Log>)
    decreases |logs|
  {
    if logs == [] then xs == [] && open == multiset{}
    else
      var l, init := logs[|logs| - 1], logs[..|logs| - 1];
      || (IsOther(l) && Interleaved(xs, open, init))
      || (xs != [] && IsCarrier(l, xs[|xs| - 1]) && Interleaved(xs[..|xs| - 1], open, init))
      || (exists x | x in open :: IsCompanion(l, x) && Interleaved(xs, open - multiset{x}, init))
  }

  predicate IsPaired(x: Action) { !x.DoTransfer? }

  function Paired(xs: seq<Action>): multiset<Action> {
    if xs == [] then multiset{}
    else Paired(xs[..|xs| - 1]) + (if IsPaired(xs[|xs| - 1]) then multiset{xs[|xs| - 1]} else multiset{})
  }

  /** The logs report exactly these actions, each paired action twice and each transfer once. */
  predicate Reports(logs: seq<Log>, xs: seq<Action>) { Interleaved(xs, Paired(xs), logs) }

  lemma TwoParts(data: seq<Byte>, u: seq<Byte>, v: seq<Byte>)
    requires data == u + v && |u| == |v| == 32
    ensures data[..32] == u && data[32..64] == v
  {
  }

  lemma StandardWords(l: Log, from: nat, to: nat, t: nat, n: nat)
    requires IsTransferSingle(l, from, to, t, n) && t < WORDS && n < WORDS
    ensures |l.data| == 64 && Word(l.data, 0) == t && Word(l.data, 1) == n
  {
    WordValue(t, 32);
    WordValue(n, 32);
    TwoParts(l.data, WordBytes(t, 32), WordBytes(n, 32));
  }

  lemma {:induction false} WordRead(data: seq<Byte>, n: nat)
    requires n < WORDS && data == WordBytes(n, 32)
    ensures BigEndian(data) == n
  {
    WordValue(n, 32);
  }

  /** A mint or burn log reads as its topics and its data say. */
  lemma OwnRead(l: Log)
    requires (l.sig == Minted || l.sig == Burned) && |l.args| == 2
    ensures LedgerOp(l) == Some(
      if l.sig == Minted then Mint(TokenText(l.args[0]), AddrText(l.args[1]), BigEndian(l.data))
      else Burn(TokenText(l.args[0]), AddrText(l.args[1]), BigEndian(l.data)))
  {
  }

  lemma OwnCounts(l: Log, x: Action)
    requires x.amount < WORDS && IsOwn(l, x) && (x.DoMint? || x.DoBurn?)
    ensures LedgerOp(l) == Some(Meaning(x))
  {
    WordRead(l.data, x.amount);
    OwnRead(l);
  }

  lemma StandardCounts(l: Log, t: nat, from: nat, to: nat, n: nat)
    requires IsTransferSingle(l, from, to, t, n) && t < WORDS && n < WORDS
    requires IsAccount(from) && IsAccount(to)
    ensures LedgerOp(l) == Some(Transfer(TokenText(t), AddrText(from), AddrText(to), n))
  {
    StandardWords(l, from, to, t, n);
    InRange(from, ADDRESSES);
    InRange(to, ADDRESSES);
  }

  /** The carrier is read as the action it reports. */
  lemma CarrierCounts(l: Log, x: Action)
    requires WellFormed(x) && IsCarrier(l, x)
    ensures LedgerOp(l) == Some(Meaning(x))
  {
    match x
    case DoMint(_, _, _) => OwnCounts(l, x);
    case DoBurn(_, _, _) => OwnCounts(l, x);
    case DoForced(t, from, to, n) => StandardCounts(l, t, from, to, n);
    case DoTransfer(t, from, to, n) => StandardCounts(l, t, from, to, n);
  }

  /** The companion is not read as anything. */
  lemma CompanionSilent(l: Log, x: Action)
    requires IsCompanion(l, x)
    ensures LedgerOp(l).None?
  {
  }

  function Meanings(xs: seq<Action>): (ops: seq<Op>)
    ensures |ops| == |xs|
  {
    seq(|xs|, i requires 0 <= i < |xs| => Meaning(xs[i]))
  }

  /** One log more: one operation more, or none. */
  lemma {:induction false} OpsNext(logs: seq<Log>, init: seq<Log>, l: Log)
    requires logs == init + [l]
    ensures OpsOf(logs) == match LedgerOp(l) case Some(op) => OpsOf(init) + [op] case None => OpsOf(init)
  {
    assert logs[..|logs| - 1] == init;
  }

  lemma MeaningsNext(xs: seq<Action>)
    requires xs != []
    ensures Meanings(xs) == Meanings(xs[..|xs| - 1]) + [Meaning(xs[|xs| - 1])]
  {
  }

  lemma {:induction false} EachOnce(xs: seq<Action>, open: multiset<Action>, logs: seq<Log>)
    requires Interleaved(xs, open, logs) && forall x :: x in xs ==> WellFormed(x)
    ensures OpsOf(logs) == Meanings(xs)
    decreases |logs|
  {
    if logs != [] {
      var l, init := logs[|logs| - 1], logs[..|logs| - 1];
      OpsNext(logs, init, l);
      if IsOther(l) && Interleaved(xs, open, init) {
        EachOnce(xs, open, init);
      } else if xs != [] && IsCarrier(l, xs[|xs| - 1]) && Interleaved(xs[..|xs| - 1], open, init) {
        CarrierCounts(l, xs[|xs| - 1]);
        MeaningsNext(xs);
        EachOnce(xs[..|xs| - 1], open, init);
      } else {
        var x :| x in open && IsCompanion(l, x) && Interleaved(xs, open - multiset{x}, init);
        CompanionSilent(l, x);
        EachOnce(xs, open - multiset{x}, init);
      }
    }
  }

  /** Handling a stream that reports some actions gives every token the account that the plain ledger
      reaches on those actions, each counted once. */
  lemma {:induction false} StreamRefines(tb: Table, logs: seq<Log>, xs: seq<Action>, u: Token)
    requires Typed(tb) && AllReadable(logs)
    requires Reports(logs, xs) && forall x :: x in xs ==> WellFormed(x)
    ensures AccountOf(HandleAll(tb, logs), u) == Run(AccountOf(tb, u), OnToken(Meanings(xs), u))
  {
    EachOnce(xs, Paired(xs), logs);
    HandledRuns(tb, logs, u);
  }

  /** From an empty store, for covered actions: the supply of a token is what was minted minus what
      was burned, and each balance is what was credited minus what was debited. */
  lemma {:induction false} StreamClosedForm(logs: seq<Log>, xs: seq<Action>, u: Token, a: Addr)
    requires AllReadable(logs) && Reports(logs, xs) && forall x :: x in xs ==> WellFormed(x)
    requires Covered(EMPTY, OnToken(Meanings(xs), u))
    ensures MetaOf(HandleAll(map[], logs), u).supply == Sum(SupplyDelta, OnToken(Meanings(xs), u))
    ensures BalanceOf(HandleAll(map[], logs), u, a) == Net(OnToken(Meanings(xs), u), a)
  {
    assert AccountOf(map[], u) == EMPTY;
    StreamRefines(map[], logs, xs, u);
    HandledTyped(map[], logs);
    HolderRowsAt(HandleAll(map[], logs), u, a);
    SupplyClosedForm(OnToken(Meanings(xs), u));
    BalanceClosedForm(OnToken(Meanings(xs), u), a);
  }

  // ---------- the stream in the contract's own numbers ----------

  /** The actions on one token number. */
  function OnNumber(xs: seq<Action>, t: nat): seq<Action> {
    if xs == [] then []
    else
      var r, x := OnNumber(xs[..|xs| - 1], t), xs[|xs| - 1];
      if x.token == t then r + [x] else r
  }

  /** What the actions mint less what they burn, and what an account gets less what it gives. */
  function SupplyOf(xs: seq<Action>): int {
    if xs == [] then 0 else SupplyOf(xs[..|xs| - 1]) + Made(xs[|xs| - 1])
  }

  function Made(x: Action): int {
    match x case DoMint(_, _, n) => n case DoBurn(_, _, n) => -(n as int) case _ => 0
  }

  function NetOf(xs: seq<Action>, a: nat): int {
    if xs == [] then 0
    else NetOf(xs[..|xs| - 1], a) + Got(xs[|xs| - 1], a) - Gave(xs[|xs| - 1], a)
  }

  function Got(x: Action, a: nat): nat {
    match x case DoBurn(_, _, _) => 0 case _ => if x.to == a then x.amount else 0
  }

  function Gave(x: Action, a: nat): nat {
    match x case DoMint(_, _, _) => 0 case _ => if x.from == a then x.amount else 0
  }

  /** The texts of different token numbers differ, so a text selects the actions of its number. */
  lemma {:induction false} ByNumber(xs: seq<Action>, t: nat)
    ensures OnToken(Meanings(xs), TokenText(t)) == Meanings(OnNumber(xs, t))
  {
    if xs != [] {
      var init, x := xs[..|xs| - 1], xs[|xs| - 1];
      ByNumber(init, t);
      MeaningsNext(xs);
      TokenTextNumber(x.token);
      TokenTextNumber(t);
      OnTokenNext(Meanings(init), Meaning(x), TokenText(t));
      if x.token == t { MeaningsMore(OnNumber(init, t), x); }
    }
  }

  lemma {:induction false} OnTokenNext(ops: seq<Op>, op: Op, t: Token)
    ensures OnToken(ops + [op], t) == if op.token == t then OnToken(ops, t) + [op] else OnToken(ops, t)
  {
    assert (ops + [op])[..|ops|] == ops;
  }

  lemma MeaningsMore(xs: seq<Action>, x: Action)
    ensures Meanings(xs + [x]) == Meanings(xs) + [Meaning(x)]
  {
  }

  /** A text that is the number of no token selects nothing. */
  lemma {:induction false} ByOther(xs: seq<Action>, u: Token)
    requires u != TokenText(Number(u))
    ensures OnToken(Meanings(xs), u) == []
  {
    if xs != [] {
      var init, x := xs[..|xs| - 1], xs[|xs| - 1];
      ByOther(init, u);
      MeaningsNext(xs);
      TokenTextNumber(x.token);
      OnTokenNext(Meanings(init), Meaning(x), u);
    }
  }

  /** From an empty store, the account under a text is that of the actions on its number alone, and empty
      under a text that no number has. */
  lemma {:induction false} StreamByText(logs: seq<Log>, xs: seq<Action>, u: Token)
    requires AllReadable(logs) && Reports(logs, xs) && forall x :: x in xs ==> WellFormed(x)
    ensures AccountOf(HandleAll(map[], logs), u) ==
      Run(EMPTY, if u == TokenText(Number(u)) then Meanings(OnNumber(xs, Number(u))) else [])
  {
    assert AccountOf(map[], u) == EMPTY;
    StreamRefines(map[], logs, xs, u);
    if u == TokenText(Number(u)) { ByNumber(xs, Number(u)); } else { ByOther(xs, u); }
  }

  lemma {:induction false} SupplyInNumbers(xs: seq<Action>)
    ensures Sum(SupplyDelta, Meanings(xs)) == SupplyOf(xs)
  {
    if xs != [] {
      SupplyInNumbers(xs[..|xs| - 1]);
      MeaningsNext(xs);
      SumNext(SupplyDelta, Meanings(xs[..|xs| - 1]), Meaning(xs[|xs| - 1]));
    }
  }

  lemma {:induction false} SumNext(w: Op -> int, ops: seq<Op>, op: Op)
    ensures Sum(w, ops + [op]) == Sum(w, ops) + w(op)
  {
    assert (ops + [op])[..|ops|] == ops;
  }

  lemma DeltaInNumbers(x: Action, a: nat)
    requires WellFormed(x) && a < ADDRESSES
    ensures Delta(Meaning(x), AddrText(a)) == Got(x, a) - Gave(x, a)
  {
    if !x.DoBurn? { SameAddress(x.to, a); }
    if !x.DoMint? { SameAddress(x.from, a); }
  }

  lemma {:induction false} NetInNumbers(xs: seq<Action>, a: nat)
    requires a < ADDRESSES && forall x :: x in xs ==> WellFormed(x)
    ensures Net(Meanings(xs), AddrText(a)) == NetOf(xs, a)
  {
    if xs != [] {
      var init, x := xs[..|xs| - 1], xs[|xs| - 1];
      assert x in xs;
      NetInNumbers(init, a);
      MeaningsNext(xs);
      NetNext(Meanings(init), Meaning(x), AddrText(a));
      DeltaInNumbers(x, a);
    }
  }

  lemma NetNext(ops: seq<Op>, op: Op, a: Addr)
    ensures Net(ops + [op], a) == Net(ops, a) + Delta(op, a)
  {
    assert (ops + [op])[..|ops|] == ops;
  }

  lemma {:induction false} OnNumberMember(xs: seq<Action>, t: nat, x: Action)
    ensures x in OnNumber(xs, t) <==> x in xs && x.token == t
  {
    if xs != [] {
      assert xs == xs[..|xs| - 1] + [xs[|xs| - 1]];
      OnNumberMember(xs[..|xs| - 1], t, x);
    }
  }

  /** In numbers, from an empty store: the supply of token `t` is what the actions on `t` mint less what they
      burn; and if every debit was covered, the balance of account `a` is what they give it less what
      they take from it. */
  lemma {:induction false} StreamByNumber(logs: seq<Log>, xs: seq<Action>, t: nat, a: nat)
    requires AllReadable(logs) && Reports(logs, xs) && (forall x :: x in xs ==> WellFormed(x)) && a < ADDRESSES
    ensures var tb, mine := HandleAll(map[], logs), OnNumber(xs, t);
      && MetaOf(tb, TokenText(t)).supply == SupplyOf(mine)
      && (Covered(EMPTY, Meanings(mine)) ==> BalanceOf(tb, TokenText(t), AddrText(a)) == NetOf(mine, a))
  {
    var mine := OnNumber(xs, t);
    assert AccountOf(map[], TokenText(t)) == EMPTY;
    StreamRefines(map[], logs, xs, TokenText(t));
    ByNumber(xs, t);
    SupplyClosedForm(Meanings(mine));
    SupplyInNumbers(mine);
    HandledTyped(map[], logs);
    HolderRowsAt(HandleAll(map[], logs), TokenText(t), AddrText(a));
    forall x | x in mine ensures WellFormed(x) { OnNumberMember(xs, t, x); }
    NetInNumbers(mine, a);
    if Covered(EMPTY, Meanings(mine)) { BalanceClosedForm(Meanings(mine), AddrText(a)); }
  }

  lemma {:induction false} LedgerTransposed(tb: Table, op: Op, l: Log)
    requires Transposed(tb)
    ensures Transposed(ApplyAll(tb, OpWrites(tb, op, l.Stamp()) + [CursorWrite(l.block)]))
  {
    var ws := OpWrites(tb, op, l.Stamp());
    TransposedOp(tb, op, l.Stamp());
    ApplyConcat(tb, ws, [CursorWrite(l.block)]);
    TransposedElsewhere(ApplyAll(tb, ws), [CursorWrite(l.block)]);
  }

  lemma {:induction false} LogTransposed(tb: Table, l: Log)
    requires Transposed(tb)
    ensures Transposed(ApplyAll(tb, LogWrites(tb, l)))
  {
    if LedgerOp(l).Some? {
      LedgerTransposed(tb, LedgerOp(l).value, l);
    } else {
      QuietLog(tb, l);
      TransposedElsewhere(tb, LogWrites(tb, l));
    }
  }

  /** Every log keeps the holder tables transposed, so every run from an empty store does. */
  lemma {:induction false} HandledTransposed(tb: Table, logs: seq<Log>)
    requires Transposed(tb)
    ensures Transposed(HandleAll(tb, logs))
  {
    if logs != [] {
      HandledTransposed(tb, logs[..|logs| - 1]);
      LogTransposed(HandleAll(tb, logs[..|logs| - 1]), logs[|logs| - 1]);
    }
  }
}
