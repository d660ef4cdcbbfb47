/** The ledger of one token, and the laws of its runs.

`Account` is what the store keeps for a token: its recorded supply, its wrapping holder count
and one row per holder. The laws below hold for every run of mints, burns and transfers, also for
runs that debit more than a holder has.
*/
module Ledger {
  import opened Keys
  import opened Rows

  datatype Op =
    | Mint(token: Token, to: Addr, amount: nat)
    | Burn(token: Token, from: Addr, amount: nat)
    | Transfer(token: Token, from: Addr, to: Addr, amount: nat)

  datatype Account = Account(supply: int, count: nat, rows: map<Addr, int>)

  const EMPTY := Account(0, 0, map[])

  /** The balance read for an address: the row, or zero when there is none. */
  function Balance(k: Account, a: Addr): int {
    if a in k.rows then k.rows[a] else 0
  }

  /** The 64-bit holder counter wraps in both directions. */
  function Inc(c: nat): (d: nat) ensures d < TWO64 { (c + 1) % TWO64 }
  function Dec(c: nat): (d: nat) ensures d < TWO64 { (c + TWO64 - 1) % TWO64 }

  function Debit(k: Account, a: Addr, amount: nat): Account {
    var left := Balance(k, a) - amount;
    if left <= 0 then k.(rows := k.rows - {a}, count := Dec(k.count))
    else k.(rows := k.rows[a := left])
  }

  function Credit(k: Account, a: Addr, amount: nat): Account {
    var b := Balance(k, a);
    k.(rows := k.rows[a := b + amount], count := if b == 0 then Inc(k.count) else k.count)
  }

  function Step(k: Account, op: Op): Account {
    match op
    case Mint(_, to, n) => Credit(k, to, n).(supply := k.supply + n)
    case Burn(_, from, n) => Debit(k, from, n).(supply := k.supply - n)
    case Transfer(_, from, to, n) => Credit(Debit(k, from, n), to, n)
  }

  function Run(k: Account, ops: seq<Op>): Account {
    if ops == [] then k else Step(Run(k, ops[..|ops| - 1]), ops[|ops| - 1])
  }

  // ---------- operations cut short ----------

  /** The account when only `n` writes of an operation are in place. Each holder row takes two writes, of
      which the first is the one that is read; then comes the metadata. */
  function Partly(k: Account, op: Op, n: nat): Account {
    if n == 0 then k
    else
      match op
      case Mint(_, to, x) => if n <= 2 then k.(rows := Credit(k, to, x).rows) else Step(k, op)
      case Burn(_, from, x) => if n <= 2 then k.(rows := Debit(k, from, x).rows) else Step(k, op)
      case Transfer(_, from, to, x) =>
        if n <= 2 then k.(rows := Debit(k, from, x).rows)
        else if n <= 4 then k.(rows := Step(k, op).rows)
        else Step(k, op)
  }

  /** The address whose balance an operation reads first, and the one it credits, if any. */
  function First(op: Op): Addr { match op case Mint(_, to, _) => to case _ => op.from }
  function Last(op: Op): Addr { match op case Burn(_, from, _) => from case _ => op.to }

  /** Doing the operation from the start after `n` of its writes ends as doing it once would have: `b` is
      the balance it reads first, `r` that of the receiver. */
  predicate Mendable(op: Op, n: nat, b: int, r: int) {
    n == 0 ||
    match op
    case Mint(_, _, x) => x == 0 && (n <= 2 || b > 0)
    case Burn(_, _, x) => (n <= 2 && b <= x) || (x == 0 && b > 0)
    case Transfer(_, from, to, x) =>
      if from == to then x == 0 || n > 2 || b <= x
      else (n <= 2 && b <= x) || (x == 0 && (n <= 4 || (b == 0 <==> r == 0)))
  }

  lemma MendableExactly(k: Account, op: Op, n: nat)
    requires NonNegative(k)
    ensures Step(Partly(k, op, n), op) == Step(k, op) <==>
      Mendable(op, n, Balance(k, First(op)), Balance(k, Last(op)))
  {
    match op
    case Mint(_, to, x) => MintMends(k, op, n);
    case Burn(_, from, x) => BurnMends(k, op, n);
    case Transfer(_, from, to, x) =>
      if from == to { SelfMends(k, op, n); } else { TransferMends(k, op, n); }
  }

  lemma Counted(c: nat)
    requires c < TWO64
    ensures Inc(c) != c && Dec(c) != c && Inc(Dec(c)) == c && Dec(Inc(c)) == c
  {
  }

  lemma MintMends(k: Account, op: Op, n: nat)
    requires NonNegative(k) && op.Mint?
    ensures Step(Partly(k, op, n), op) == Step(k, op) <==> Mendable(op, n, Balance(k, op.to), Balance(k, op.to))
  {
    var once, twice := Step(k, op), Step(Partly(k, op, n), op);
    Counted(once.count);
    assert Balance(once, op.to) == Balance(k, op.to) + op.amount;
    if n > 0 {
      assert Balance(twice, op.to) == Balance(k, op.to) + 2 * op.amount;
      if op.amount == 0 { assert twice.rows == once.rows; }
    }
  }

  lemma BurnMends(k: Account, op: Op, n: nat)
    requires NonNegative(k) && op.Burn?
    ensures Step(Partly(k, op, n), op) == Step(k, op) <==> Mendable(op, n, Balance(k, op.from), Balance(k, op.from))
  {
    var once, twice := Step(k, op), Step(Partly(k, op, n), op);
    Counted(once.count);
    if n > 0 {
      assert Balance(k, op.from) <= op.amount ==> twice.rows == once.rows;
      assert Balance(k, op.from) > op.amount ==>
        Balance(once, op.from) == Balance(k, op.from) - op.amount && Balance(twice, op.from) <= Balance(once, op.from);
      if op.amount == 0 { assert twice.rows == once.rows; }
    }
  }

  lemma SelfMends(k: Account, op: Op, n: nat)
    requires NonNegative(k) && op.Transfer? && op.from == op.to
    ensures Step(Partly(k, op, n), op) == Step(k, op) <==> Mendable(op, n, Balance(k, op.from), Balance(k, op.to))
  {
    var part := Partly(k, op, n);
    var once, twice := Step(k, op), Step(part, op);
    SelfStep(k, op);
    SelfStep(part, op);
    assert part.supply == k.supply && part.count == k.count;
    assert Balance(once, op.from) == once.rows[op.from] && Balance(twice, op.from) == twice.rows[op.from];
    assert twice.rows[op.from] == once.rows[op.from] ==> twice.rows == once.rows;
  }

  /** A self-transfer raises the balance to the amount and moves nothing else. */
  lemma SelfStep(k: Account, op: Op)
    requires k.count < TWO64 && op.Transfer? && op.from == op.to
    ensures var b := Balance(k, op.from);
      Step(k, op) == k.(rows := k.rows[op.from := if b <= op.amount then op.amount else b])
  {
    Counted(k.count);
  }

  lemma TransferMends(k: Account, op: Op, n: nat)
    requires NonNegative(k) && op.Transfer? && op.from != op.to
    ensures Step(Partly(k, op, n), op) == Step(k, op) <==> Mendable(op, n, Balance(k, op.from), Balance(k, op.to))
  {
    if Mendable(op, n, Balance(k, op.from), Balance(k, op.to)) {
      TransferMended(k, op, n);
    } else {
      TransferBroken(k, op, n);
    }
  }

  lemma TransferMended(k: Account, op: Op, n: nat)
    requires NonNegative(k) && op.Transfer? && op.from != op.to
    requires Mendable(op, n, Balance(k, op.from), Balance(k, op.to))
    ensures Step(Partly(k, op, n), op) == Step(k, op)
  {
    var part := Partly(k, op, n);
    TransferStep(k, op);
    TransferStep(part, op);
    RowsAgree(Step(part, op).rows, Step(k, op).rows, op.from, op.to);
    MendedCount(k, op, n);
  }

  lemma RowsAgree(m: map<Addr, int>, l: map<Addr, int>, a: Addr, b: Addr)
    requires forall c :: c != a && c != b ==> (c in m <==> c in l)
    requires forall c :: c in m && c != a && c != b ==> m[c] == l[c]
    requires (a in m <==> a in l) && (a in m ==> m[a] == l[a])
    requires (b in m <==> b in l) && (b in m ==> m[b] == l[b])
    ensures m == l
  {
  }

  lemma MendedCount(k: Account, op: Op, n: nat)
    requires NonNegative(k) && op.Transfer? && op.from != op.to
    requires Mendable(op, n, Balance(k, op.from), Balance(k, op.to))
    ensures Step(Partly(k, op, n), op).count == Step(k, op).count
  {
    Counted(k.count);
  }

  lemma TransferBroken(k: Account, op: Op, n: nat)
    requires NonNegative(k) && op.Transfer? && op.from != op.to
    requires !Mendable(op, n, Balance(k, op.from), Balance(k, op.to))
    ensures Step(Partly(k, op, n), op) != Step(k, op)
  {
    var once, twice := Step(k, op), Step(Partly(k, op, n), op);
    TransferStep(k, op);
    TransferStep(Partly(k, op, n), op);
    if op.amount == 0 {
      Counted(k.count);
      Counted(once.count);
      assert twice.count != once.count;
    } else {
      assert Balance(twice, op.to) != Balance(once, op.to) || Balance(twice, op.from) != Balance(once, op.from);
    }
  }

  lemma TransferStep(k: Account, op: Op)
    requires op.Transfer? && op.from != op.to
    ensures var b, r, x, after := Balance(k, op.from), Balance(k, op.to), op.amount, Step(k, op);
      && Balance(after, op.from) == (if b <= x then 0 else b - x) && Balance(after, op.to) == r + x
      && (op.from in after.rows <==> b > x) && op.to in after.rows
      && (forall a :: a != op.from && a != op.to ==> (a in after.rows <==> a in k.rows))
      && (forall a :: a in k.rows && a != op.from && a != op.to ==> after.rows[a] == k.rows[a])
      && after.supply == k.supply
      && after.count == (var c := if b <= x then Dec(k.count) else k.count; if r == 0 then Inc(c) else c)
  {
  }

  ghost predicate NonNegative(k: Account) {
    k.count < TWO64 && forall a :: a in k.rows ==> k.rows[a] >= 0
  }

  lemma {:induction false} RunNonNegative(k: Account, ops: seq<Op>)
    requires NonNegative(k)
    ensures NonNegative(Run(k, ops))
  {
    if ops != [] { RunNonNegative(k, ops[..|ops| - 1]); }
  }

  // ---------- sums over the holder rows ----------

  ghost function Total(m: map<Addr, int>): int {
    if m == map[] then 0
    else
      var a :| a in m;
      m[a] + Total(m - {a})
  }

  /** Any row can be taken out first. */
  lemma {:induction false} TotalWithout(m: map<Addr, int>, a: Addr)
    requires a in m
    ensures Total(m) == m[a] + Total(m - {a})
    decreases |m|
  {
    var b :| b in m && Total(m) == m[b] + Total(m - {b});
    if a != b {
      TotalWithout(m - {b}, a);
      TotalWithout(m - {a}, b);
      assert m - {b} - {a} == m - {a} - {b};
    }
  }

  lemma TotalUpdate(m: map<Addr, int>, a: Addr, n: int)
    ensures Total(m[a := n]) == Total(m) + n - (if a in m then m[a] else 0)
    ensures Total(m - {a}) == Total(m) - (if a in m then m[a] else 0)
  {
    TotalWithout(m[a := n], a);
    assert m[a := n] - {a} == m - {a};
    if a in m { TotalWithout(m, a); } else { assert m - {a} == m; }
  }

  // ---------- conservation with its exact drift ----------

  /** What a debit asks for beyond the balance it is taken from. */
  function Uncovered(k: Account, op: Op): nat {
    match op
    case Mint(_, _, _) => 0
    case Burn(_, from, n) => if n > Balance(k, from) then n - Balance(k, from) else 0
    case Transfer(_, from, _, n) => if n > Balance(k, from) then n - Balance(k, from) else 0
  }

  /** The same, summed over a run. */
  function Shortfall(k: Account, ops: seq<Op>): nat {
    if ops == [] then 0
    else
      var prior := ops[..|ops| - 1];
      Shortfall(k, prior) + Uncovered(Run(k, prior), ops[|ops| - 1])
  }

  lemma DebitTotal(k: Account, a: Addr, n: nat)
    requires NonNegative(k)
    ensures NonNegative(Debit(k, a, n)) && Debit(k, a, n).supply == k.supply
    ensures Total(Debit(k, a, n).rows) ==
      Total(k.rows) - (if n > Balance(k, a) then Balance(k, a) else n)
  {
    TotalUpdate(k.rows, a, Balance(k, a) - n);
  }

  lemma CreditTotal(k: Account, a: Addr, n: nat)
    ensures Credit(k, a, n).supply == k.supply
    ensures Total(Credit(k, a, n).rows) == Total(k.rows) + n
  {
    TotalUpdate(k.rows, a, Balance(k, a) + n);
  }

  lemma StepDrift(k: Account, op: Op)
    requires NonNegative(k)
    ensures Total(Step(k, op).rows) - Step(k, op).supply == Total(k.rows) - k.supply + Uncovered(k, op)
  {
    match op
    case Mint(_, to, n) => CreditTotal(k, to, n);
    case Burn(_, from, n) => DebitTotal(k, from, n);
    case Transfer(_, from, to, n) =>
      DebitTotal(k, from, n);
      CreditTotal(Debit(k, from, n), to, n);
  }

  /** Stored balances exceed the recorded supply by exactly what debits were short of. */
  lemma {:induction false} DriftLaw(k: Account, ops: seq<Op>)
    requires NonNegative(k)
    ensures Total(Run(k, ops).rows) - Run(k, ops).supply
         == Total(k.rows) - k.supply + Shortfall(k, ops)
  {
    if ops != [] {
      var prior := ops[..|ops| - 1];
      DriftLaw(k, prior);
      RunNonNegative(k, prior);
      StepDrift(Run(k, prior), ops[|ops| - 1]);
    }
  }

  /** Every debit of the run finds the balance it needs. */
  predicate Covered(k: Account, ops: seq<Op>) {
    ops == [] ||
    (Covered(k, ops[..|ops| - 1]) && Uncovered(Run(k, ops[..|ops| - 1]), ops[|ops| - 1]) == 0)
  }

  lemma {:induction false} CoveredIffNoShortfall(k: Account, ops: seq<Op>)
    ensures Covered(k, ops) <==> Shortfall(k, ops) == 0
  {
    if ops != [] { CoveredIffNoShortfall(k, ops[..|ops| - 1]); }
  }

  /** From an empty token, supply equals the sum of balances exactly when every debit was covered. */
  lemma {:induction false} SupplyConserved(ops: seq<Op>)
    ensures Total(Run(EMPTY, ops).rows) == Run(EMPTY, ops).supply <==> Covered(EMPTY, ops)
    ensures Total(Run(EMPTY, ops).rows) >= Run(EMPTY, ops).supply
  {
    DriftLaw(EMPTY, ops);
    CoveredIffNoShortfall(EMPTY, ops);
  }

  // ---------- the holder counter ----------

  ghost function Positive(k: Account): set<Addr> {
    set a | a in k.rows && k.rows[a] > 0
  }

  /** Counter changes without a change in the set of positive holders: +1 for a zero credit to an
      empty holder, -1 for a debit from an empty holder. */
  function DebitGhost(k: Account, a: Addr): int { if Balance(k, a) == 0 then -1 else 0 }
  function CreditGhost(k: Account, a: Addr, n: nat): int {
    if Balance(k, a) == 0 && n == 0 then 1 else 0
  }

  function Phantom(k: Account, op: Op): int {
    match op
    case Mint(_, to, n) => CreditGhost(k, to, n)
    case Burn(_, from, _) => DebitGhost(k, from)
    case Transfer(_, from, to, n) => DebitGhost(k, from) + CreditGhost(Debit(k, from, n), to, n)
  }

  function Phantoms(k: Account, ops: seq<Op>): int {
    if ops == [] then 0
    else
      var prior := ops[..|ops| - 1];
      Phantoms(k, prior) + Phantom(Run(k, prior), ops[|ops| - 1])
  }

  /** The counter agrees, modulo 2^64, with an unbounded counter. */
  predicate Counts(k: Account, n: int) { k.count == n % TWO64 }

  /** The counter moves by one modulo 2^64, below zero too. */
  lemma CountMoves(n: int)
    ensures Inc(n % TWO64) == (n + 1) % TWO64 && Dec(n % TWO64) == (n - 1) % TWO64
  {
  }

  lemma DebitCounts(k: Account, a: Addr, n: nat, x: int)
    requires NonNegative(k) && Counts(k, |Positive(k)| + x)
    ensures NonNegative(Debit(k, a, n))
    ensures Counts(Debit(k, a, n), |Positive(Debit(k, a, n))| + x + DebitGhost(k, a))
  {
    var d := Debit(k, a, n);
    CountMoves(|Positive(k)| + x);
    if Balance(k, a) - n <= 0 {
      assert Positive(d) == Positive(k) - {a};
    } else {
      assert Positive(d) == Positive(k);
    }
  }

  lemma CreditCounts(k: Account, a: Addr, n: nat, x: int)
    requires NonNegative(k) && Counts(k, |Positive(k)| + x)
    ensures NonNegative(Credit(k, a, n))
    ensures Counts(Credit(k, a, n), |Positive(Credit(k, a, n))| + x + CreditGhost(k, a, n))
  {
    var c := Credit(k, a, n);
    CountMoves(|Positive(k)| + x);
    if Balance(k, a) == 0 && n > 0 {
      assert Positive(c) == Positive(k) + {a};
    } else {
      assert Positive(c) == Positive(k);
    }
  }

  /** The counter is the number of positive holders plus the phantom changes, modulo 2^64. */
  lemma {:induction false} CountLaw(ops: seq<Op>)
    ensures Counts(Run(EMPTY, ops), |Positive(Run(EMPTY, ops))| + Phantoms(EMPTY, ops))
  {
    if ops == [] {
      assert Positive(EMPTY) == {};
    } else {
      var prior := ops[..|ops| - 1];
      CountLaw(prior);
      RunNonNegative(EMPTY, prior);
      var k, x := Run(EMPTY, prior), Phantoms(EMPTY, prior);
      match ops[|ops| - 1]
      case Mint(_, to, n) => CreditCounts(k, to, n, x);
      case Burn(_, from, n) => DebitCounts(k, from, n, x);
      case Transfer(_, from, to, n) =>
        DebitCounts(k, from, n, x);
        CreditCounts(Debit(k, from, n), to, n, x + DebitGhost(k, from));
    }
  }

  // ---------- runs that pay their way ----------

  /** Positive amounts, every debit covered: what a token contract can emit. */
  ghost predicate Solvent(ops: seq<Op>) {
    Covered(EMPTY, ops) && forall i :: 0 <= i < |ops| ==> ops[i].amount > 0
  }

  /** What an operation adds to the balance of an address, and to the supply. */
  function Delta(op: Op, a: Addr): int {
    match op
    case Mint(_, to, n) => if to == a then n else 0
    case Burn(_, from, n) => if from == a then 0 - n else 0
    case Transfer(_, from, to, n) => (if to == a then n else 0) - (if from == a then n else 0)
  }

  function SupplyDelta(op: Op): int {
    match op
    case Mint(_, _, n) => n
    case Burn(_, _, n) => 0 - n
    case Transfer(_, _, _, _) => 0
  }

  function Sum(w: Op -> int, ops: seq<Op>): int {
    if ops == [] then 0 else Sum(w, ops[..|ops| - 1]) + w(ops[|ops| - 1])
  }

  /** Credits minus debits: the balance of an address in closed form. */
  function Net(ops: seq<Op>, a: Addr): int { Sum(op => Delta(op, a), ops) }

  /** On a covered run every balance is its credits minus its debits. */
  lemma {:induction false} BalanceClosedForm(ops: seq<Op>, a: Addr)
    requires Covered(EMPTY, ops)
    ensures Balance(Run(EMPTY, ops), a) == Net(ops, a)
  {
    if ops != [] { BalanceClosedForm(ops[..|ops| - 1], a); }
  }

  lemma {:induction false} SupplyClosedForm(ops: seq<Op>)
    ensures Run(EMPTY, ops).supply == Sum(SupplyDelta, ops)
  {
    if ops != [] { SupplyClosedForm(ops[..|ops| - 1]); }
  }

  /** Rows are kept for the positive balances only. */
  ghost predicate Tight(k: Account) {
    forall a: Addr :: a in k.rows <==> Balance(k, a) > 0
  }

  /** On a solvent run the rows are the positive balances and the counter counts the rows. */
  lemma {:induction false} SolventRows(ops: seq<Op>)
    requires Solvent(ops)
    ensures var k := Run(EMPTY, ops);
      Tight(k) && k.count == |k.rows| % TWO64 && |k.rows| <= |ops|
  {
    if ops != [] {
      SolventRows(ops[..|ops| - 1]);
      SolventCount(Run(EMPTY, ops[..|ops| - 1]), ops[|ops| - 1]);
    }
  }

  lemma SolventCount(k: Account, op: Op)
    requires Tight(k) && k.count == |k.rows| % TWO64
    requires Uncovered(k, op) == 0 && op.amount > 0
    ensures Tight(Step(k, op)) && Step(k, op).count == |Step(k, op).rows| % TWO64
    ensures |Step(k, op).rows| <= |k.rows| + 1
  {
    match op
    case Mint(_, to, n) => CreditRows(k, to, n);
    case Burn(_, from, n) => DebitRows(k, from, n);
    case Transfer(_, from, to, n) =>
      DebitRows(k, from, n);
      CreditRows(Debit(k, from, n), to, n);
  }

  lemma DebitRows(k: Account, a: Addr, n: nat)
    requires Tight(k) && k.count == |k.rows| % TWO64 && 0 < n <= Balance(k, a)
    ensures var d := Debit(k, a, n);
      Tight(d) && d.count == |d.rows| % TWO64 && |d.rows| <= |k.rows|
  {
    assert a in k.rows;
    CountMoves(|k.rows|);
    if n == Balance(k, a) {
      assert (k.rows - {a}).Keys == k.rows.Keys - {a};
    } else {
      assert k.rows[a := Balance(k, a) - n].Keys == k.rows.Keys;
    }
  }

  lemma CreditRows(k: Account, a: Addr, n: nat)
    requires Tight(k) && k.count == |k.rows| % TWO64 && 0 < n
    ensures var c := Credit(k, a, n);
      Tight(c) && c.count == |c.rows| % TWO64 && |c.rows| <= |k.rows| + 1
  {
    CountMoves(|k.rows|);
    assert Credit(k, a, n).rows.Keys == k.rows.Keys + {a};
    assert a in k.rows <==> Balance(k, a) > 0;
  }

  function Without(s: seq<Op>, j: nat): (rest: seq<Op>)
    requires j < |s|
    ensures |rest| == |s| - 1
  {
    s[..j] + s[j + 1..]
  }

  lemma {:induction false} SumAround(w: Op -> int, u: seq<Op>, x: Op, v: seq<Op>)
    ensures Sum(w, u + [x] + v) == Sum(w, u + v) + w(x)
  {
    SumConcat(w, u + [x], v);
    SumConcat(w, u, v);
    assert (u + [x])[..|u|] == u;
  }

  /** Taking one operation out of a list. */
  lemma {:induction false} SumWithout(w: Op -> int, s: seq<Op>, j: nat)
    requires j < |s|
    ensures Sum(w, s) == Sum(w, Without(s, j)) + w(s[j])
  {
    Rejoined(s, j);
    SumAround(w, s[..j], s[j], s[j + 1..]);
  }

  lemma Rejoined(s: seq<Op>, j: nat)
    requires j < |s|
    ensures s[..j] + [s[j]] + s[j + 1..] == s
  {
  }

  lemma MembersWithout(s: seq<Op>, j: nat)
    requires j < |s|
    ensures multiset(Without(s, j)) == multiset(s) - multiset{s[j]}
  {
    assert s == s[..j] + [s[j]] + s[j + 1..];
    assert multiset(s) == multiset(s[..j]) + multiset{s[j]} + multiset(s[j + 1..]);
  }

  /** Sums do not depend on the order of the operations. */
  lemma {:induction false} SumPermutes(w: Op -> int, s: seq<Op>, t: seq<Op>)
    requires multiset(s) == multiset(t)
    ensures Sum(w, s) == Sum(w, t)
    decreases |s|
  {
    if s == [] {
      assert |multiset(t)| == 0;
    } else {
      assert s[0] in multiset(t);
      var j :| 0 <= j < |t| && t[j] == s[0];
      SumWithout(w, s, 0);
      SumWithout(w, t, j);
      MembersWithout(s, 0);
      MembersWithout(t, j);
      SumPermutes(w, Without(s, 0), Without(t, j));
    }
  }

  lemma {:induction false} SumConcat(w: Op -> int, s: seq<Op>, t: seq<Op>)
    ensures Sum(w, s + t) == Sum(w, s) + Sum(w, t)
  {
    if t == [] {
      assert s + t == s;
    } else {
      assert (s + t)[..|s + t| - 1] == s + t[..|t| - 1];
      SumConcat(w, s, t[..|t| - 1]);
    }
  }

  /** Two solvent orderings of the same operations leave the same token: same supply, same holder
      rows, same counter. */
  lemma {:induction false} OrderIndependence(s: seq<Op>, t: seq<Op>)
    requires Solvent(s) && Solvent(t) && multiset(s) == multiset(t)
    ensures Run(EMPTY, s) == Run(EMPTY, t)
  {
    SupplyClosedForm(s);
    SupplyClosedForm(t);
    SumPermutes(SupplyDelta, s, t);
    var k, l := Run(EMPTY, s), Run(EMPTY, t);
    forall a: Addr ensures Balance(k, a) == Balance(l, a) {
      BalanceClosedForm(s, a);
      BalanceClosedForm(t, a);
      SumPermutes(op => Delta(op, a), s, t);
    }
    SolventRows(s);
    SolventRows(t);
    SameRows(k, l);
  }

  lemma SameRows(k: Account, l: Account)
    requires Tight(k) && Tight(l)
    requires forall a: Addr :: Balance(k, a) == Balance(l, a)
    ensures k.rows == l.rows
  {
    forall a: Addr ensures a in k.rows <==> a in l.rows {
      assert Balance(k, a) == Balance(l, a);
    }
    forall a | a in k.rows ensures k.rows[a] == l.rows[a] {
      assert k.rows[a] == Balance(k, a) && l.rows[a] == Balance(l, a);
    }
  }

  lemma PositiveRows(k: Account)
    requires Tight(k)
    ensures |Positive(k)| == |k.rows|
  {
    assert Positive(k) == k.rows.Keys;
  }

  lemma NoWrap(n: nat, bound: nat)
    requires n <= bound < TWO64
    ensures n % TWO64 == n
  {
  }

  /** On a solvent run shorter than 2^64 the counter is the exact number of holders with a positive
      balance, which is also the number of rows: it never wraps. */
  lemma {:induction false} HolderCountExact(ops: seq<Op>)
    requires Solvent(ops) && |ops| < TWO64
    ensures Run(EMPTY, ops).count == |Run(EMPTY, ops).rows|
    ensures Run(EMPTY, ops).count == |Positive(Run(EMPTY, ops))|
  {
    SolventRows(ops);
    PositiveRows(Run(EMPTY, ops));
    NoWrap(|Run(EMPTY, ops).rows|, |ops|);
  }

  // ---------- inputs where the plain reading fails ----------

  /** One burn from an address that has nothing: the supply goes below zero while no balance does, and the
      holder counter wraps; a burn of nothing wraps it too. */
  lemma BurnFromNothing(t: Token, a: Addr, x: nat)
    ensures var k := Run(EMPTY, [Burn(t, a, x)]);
      k == Account(-(x as int), TWO64 - 1, map[]) && Total(k.rows) == 0
  {
    assert [Burn(t, a, x)][..0] == [];
    assert Run(EMPTY, [Burn(t, a, x)]) == Step(EMPTY, Burn(t, a, x));
  }
}
