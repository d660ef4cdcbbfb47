/** Freeze records as folds over the freeze logs of one wallet and asset.

A flag log starts the record afresh; amount and lockup logs update one field and create the record
if it is missing. The record after a run is given in closed form by the last log of each kind.
*/
module Freezes {
  import opened Keys
  import opened Rows
  import opened Plans
  import opened Logs
  import opened Replay

  datatype Touch = Flag(frozen: bool) | Held(text: string) | Lockup(expiry: nat)

  /** The record a log is about: wallet, and asset or the empty scope of the whole wallet. */
  function ScopeOf(l: Log): Option<(Addr, OptToken)> {
    if |l.args| < RecordNeeds(l.sig) then None
    else match l.sig
      case WalletFrozen => Some((AddrText(l.args[0]), ""))
      case AssetFrozen => Some((AddrText(l.args[1]), TokenText(l.args[0])))
      case PartialFreeze => Some((AddrText(l.args[1]), TokenText(l.args[0])))
      case LockupSet => Some((AddrText(l.args[1]), TokenText(l.args[0])))
      case _ => None
  }

  function TouchOf(l: Log): Touch
    requires ScopeOf(l).Some?
  {
    if l.sig == PartialFreeze then Held(AmountText(l.data))
    else if l.sig == LockupSet then Lockup(Word(l.data, 0) % TWO64)
    else Flag(Word(l.data, 0) != 0)
  }

  /** The touches of one record in a list of logs. */
  function Touches(logs: seq<Log>, w: Addr, s: OptToken): seq<Touch> {
    if logs == [] then []
    else
      var l, prior := logs[|logs| - 1], Touches(logs[..|logs| - 1], w, s);
      if ScopeOf(l) == Some((w, s)) then prior + [TouchOf(l)] else prior
  }

  function Touched(f: Option<FreezeState>, w: Addr, s: OptToken, x: Touch): FreezeState {
    var prior := if f.Some? then f.value else FreezeState(w, s, false, "", 0);
    match x
    case Flag(b) => FreezeState(w, s, b, "", 0)
    case Held(t) => prior.(amount := t)
    case Lockup(e) => prior.(lockup := e)
  }

  function Fold(w: Addr, s: OptToken, xs: seq<Touch>): Option<FreezeState> {
    if xs == [] then None
    else Some(Touched(Fold(w, s, xs[..|xs| - 1]), w, s, xs[|xs| - 1]))
  }

  // ---------- closed form ----------

  /** The last flag, `false` when there is none. */
  function LastFlag(xs: seq<Touch>): bool {
    if xs == [] then false
    else match xs[|xs| - 1] case Flag(b) => b case _ => LastFlag(xs[..|xs| - 1])
  }

  /** The last amount after the last flag, empty when there is none. */
  function AmountSince(xs: seq<Touch>): string {
    if xs == [] then ""
    else match xs[|xs| - 1]
      case Flag(_) => ""
      case Held(t) => t
      case Lockup(_) => AmountSince(xs[..|xs| - 1])
  }

  /** The last lockup after the last flag, zero when there is none. */
  function LockupSince(xs: seq<Touch>): nat {
    if xs == [] then 0
    else match xs[|xs| - 1]
      case Flag(_) => 0
      case Held(_) => LockupSince(xs[..|xs| - 1])
      case Lockup(e) => e
  }

  lemma {:induction false} FoldClosedForm(w: Addr, s: OptToken, xs: seq<Touch>)
    ensures Fold(w, s, xs) ==
      if xs == [] then None else Some(FreezeState(w, s, LastFlag(xs), AmountSince(xs), LockupSince(xs)))
  {
    if xs != [] { FoldClosedForm(w, s, xs[..|xs| - 1]); }
  }

  /** Amount and lockup logs on one record commute. */
  lemma {:induction false} AmountLockupCommute(w: Addr, s: OptToken, xs: seq<Touch>, t: string, e: nat)
    ensures Fold(w, s, xs + [Held(t), Lockup(e)]) == Fold(w, s, xs + [Lockup(e), Held(t)])
  {
    var u, v := xs + [Held(t), Lockup(e)], xs + [Lockup(e), Held(t)];
    var m := |xs| + 1;
    assert u[..m] == xs + [Held(t)] && v[..m] == xs + [Lockup(e)];
    assert u[..m][..|xs|] == xs && v[..m][..|xs|] == xs;
  }

  // ---------- runs of logs ----------

  lemma TouchWrite(tb: Table, l: Log)
    requires Typed(tb) && ScopeOf(l).Some?
    ensures var (w, s) := ScopeOf(l).value;
      RecordPart(tb, l) == [FreezeWrite(Touched(FreezeOf(tb, w, s), w, s, TouchOf(l)))]
    ensures var (w, s) := ScopeOf(l).value;
      var f := Touched(FreezeOf(tb, w, s), w, s, TouchOf(l)); f.wallet == w && f.token == s
  {
    var (w, s) := ScopeOf(l).value;
    FreezeFits(tb, w, s);
  }

  lemma RecordElsewhere(tb: Table, l: Log, w: Addr, s: OptToken)
    requires Typed(tb) && ScopeOf(l) != Some((w, s))
    ensures Spares(RecordPart(tb, l), FreezeKey(w, s))
  {
    if ScopeOf(l).Some? { TouchWrite(tb, l); }
  }

  lemma LogElsewhere(tb: Table, l: Log, w: Addr, s: OptToken)
    requires Typed(tb) && ScopeOf(l) != Some((w, s))
    ensures Spares(LogWrites(tb, l), FreezeKey(w, s))
  {
    if LedgerOp(l).Some? || l.sig == ForcedTransfer || l.sig == NoTopics {
      TokenLogKeys(tb, l);
    } else {
      LogSplit(tb, l);
      RecordElsewhere(tb, l, w, s);
      RestSpares(l, FreezeKey(w, s));
    }
  }

  /** A log touches its own record as described, and no other. */
  lemma {:induction false} LogTouches(tb: Table, l: Log, w: Addr, s: OptToken)
    requires Typed(tb)
    ensures FreezeOf(ApplyAll(tb, LogWrites(tb, l)), w, s) ==
      if ScopeOf(l) == Some((w, s)) then Some(Touched(FreezeOf(tb, w, s), w, s, TouchOf(l)))
      else FreezeOf(tb, w, s)
  {
    if ScopeOf(l) == Some((w, s)) {
      LogSplit(tb, l);
      TouchWrite(tb, l);
      var r := RecordPart(tb, l);
      ApplyConcat(tb, r, Rest(l));
      assert r[..0] == [];
      RestSpares(l, FreezeKey(w, s));
      ApplyElsewhere(ApplyAll(tb, r), Rest(l), FreezeKey(w, s));
    } else {
      LogElsewhere(tb, l, w, s);
      ApplyElsewhere(tb, LogWrites(tb, l), FreezeKey(w, s));
    }
  }

  /** After any run a freeze record is the fold of the touches about it. */
  lemma {:induction false} FreezeFolds(logs: seq<Log>, w: Addr, s: OptToken)
    requires forall i :: 0 <= i < |logs| ==> Readable(logs[i])
    ensures Typed(HandleAll(map[], logs))
    ensures FreezeOf(HandleAll(map[], logs), w, s) == Fold(w, s, Touches(logs, w, s))
  {
    if logs != [] {
      var m := |logs| - 1;
      var mid := HandleAll(map[], logs[..m]);
      FreezeFolds(logs[..m], w, s);
      LogTyped(mid, logs[m]);
      LogTouches(mid, logs[m], w, s);
      TouchesNext(logs, w, s);
      if ScopeOf(logs[m]) == Some((w, s)) {
        FoldNext(w, s, Touches(logs[..m], w, s), TouchOf(logs[m]));
      }
    }
  }

  lemma {:induction false} TouchesNext(logs: seq<Log>, w: Addr, s: OptToken)
    requires logs != []
    ensures var l, prior := logs[|logs| - 1], Touches(logs[..|logs| - 1], w, s);
      Touches(logs, w, s) == if ScopeOf(l) == Some((w, s)) then prior + [TouchOf(l)] else prior
  {
  }

  lemma {:induction false} FoldNext(w: Addr, s: OptToken, xs: seq<Touch>, x: Touch)
    ensures Fold(w, s, xs + [x]) == Some(Touched(Fold(w, s, xs), w, s, x))
  {
    assert (xs + [x])[..|xs|] == xs;
  }

  /** After any run from an empty store, every freeze record holds the last flag, and the last amount
      and lockup reported since that flag. */
  lemma {:induction false} FreezeClosedForm(logs: seq<Log>, w: Addr, s: OptToken)
    requires forall i :: 0 <= i < |logs| ==> Readable(logs[i])
    ensures var xs := Touches(logs, w, s);
      FreezeOf(HandleAll(map[], logs), w, s) ==
        if xs == [] then None else Some(FreezeState(w, s, LastFlag(xs), AmountSince(xs), LockupSince(xs)))
  {
    FreezeFolds(logs, w, s);
    FoldClosedForm(w, s, Touches(logs, w, s));
  }
}
