/** Identities and the country index, over runs of logs.

The index must list every bound wallet under its country; listing nothing else needs more, since
rebinding a wallet to another country leaves the old entry behind. Both are settled here: the
first holds on every run, the second exactly when no step rebinds a bound wallet across countries.
*/
module Identities {
  import opened Keys
  import opened Rows
  import opened Plans
  import opened Logs
  import opened Replay
  import opened Listings

  /** Every bound wallet is listed under its current country. */
  ghost predicate ListedAll(tb: Table) {
    forall w: Addr :: ListedAt(tb, w)
  }

  predicate ListedAt(tb: Table, w: Addr) {
    match IdentityOf(tb, w) case Some(id) => CountryKey(id.country, w) in tb case None => true
  }

  /** Every index entry belongs to a wallet bound in that country. */
  ghost predicate Clean(tb: Table) {
    forall c: nat, w: Addr :: CleanAt(tb, c, w)
  }

  predicate CleanAt(tb: Table, c: nat, w: Addr) {
    CountryKey(c, w) in tb ==> IdentityOf(tb, w).Some? && IdentityOf(tb, w).value.country == c
  }

  /** No identity is reached under a country that is not its own. */
  ghost predicate Truthful(tb: Table) {
    forall c: nat, w: Addr :: TruthfulAt(tb, c, w)
  }

  predicate TruthfulAt(tb: Table, c: nat, w: Addr) {
    CountryKey(c, w) in tb && IdentityOf(tb, w).Some? ==> IdentityOf(tb, w).value.country == c
  }

  /** The listing of a country is what it should be: the bound identities of that country. */
  ghost predicate Exact(tb: Table, c: nat, all: seq<Identity>) {
    forall id :: id in all <==> IdentityOf(tb, id.wallet) == Some(id) && id.country == c
  }

  // ---------- single steps ----------

  /** A change to the identities: what the three identity logs do. */
  datatype Change = Bind(id: Identity) | Unbind(wallet: Addr) | Recover(lost: Addr, next: Addr, block: nat)

  function ChangeWrites(tb: Table, x: Change): seq<Write> {
    match x
    case Bind(id) => BindWrites(id)
    case Unbind(w) => UnbindWrites(tb, w)
    case Recover(lost, next, b) => RecoverWrites(tb, lost, next, b)
  }

  /** A wallet takes on a country: it is unbound, or bound in that country already. */
  predicate Free(tb: Table, w: Addr, country: nat) {
    IdentityOf(tb, w).None? || IdentityOf(tb, w).value.country == country
  }

  /** The change binds no wallet that is bound in another country. */
  predicate Guarded(tb: Table, x: Change) {
    match x
    case Bind(id) => Free(tb, id.wallet, id.country)
    case Unbind(_) => true
    case Recover(lost, next, _) =>
      IdentityOf(tb, lost).Some? ==> Free(tb, next, IdentityOf(tb, lost).value.country)
  }

  lemma {:induction false} BindApplied(tb: Table, id: Identity, c: nat, w: Addr)
    ensures var after := ApplyAll(tb, BindWrites(id));
      && IdentityOf(after, w) == (if w == id.wallet then Some(id) else IdentityOf(tb, w))
      && (CountryKey(c, w) in after <==> CountryKey(c, w) in tb || (w == id.wallet && c == id.country))
  {
    var ws := BindWrites(id);
    assert ws[..1] == [ws[0]] && ws[..1][..0] == [];
    assert ApplyAll(tb, ws[..1]) == Apply(tb, ws[0]);
  }

  predicate Binds(tb: Table, w: Addr, c: nat) {
    IdentityOf(tb, w).Some? && IdentityOf(tb, w).value.country == c
  }

  lemma {:induction false} UnbindApplied(tb: Table, v: Addr, c: nat, w: Addr)
    ensures var after := ApplyAll(tb, UnbindWrites(tb, v));
      && IdentityOf(after, w) == (if w == v then None else IdentityOf(tb, w))
      && (CountryKey(c, w) in after <==>
           (CountryKey(c, w) in tb && !(w == v && Binds(tb, v, c))))
  {
    var ws := UnbindWrites(tb, v);
    var m := |ws| - 1;
    if m == 1 {
      assert ws[..1] == [ws[0]] && ws[..1][..0] == [];
      assert ApplyAll(tb, ws[..1]) == Apply(tb, ws[0]);
    } else {
      assert ws[..0] == [];
    }
  }

  function Rebound(tb: Table, lost: Addr, next: Addr, block: nat): Identity
    requires IdentityOf(tb, lost).Some?
  {
    Identity(next, IdentityOf(tb, lost).value.identity, IdentityOf(tb, lost).value.country, block)
  }

  lemma {:induction false} RecoverApplied(tb: Table, lost: Addr, next: Addr, block: nat)
    requires IdentityOf(tb, lost).Some?
    ensures var mid := ApplyAll(tb, BindWrites(Rebound(tb, lost, next, block)));
      ApplyAll(tb, RecoverWrites(tb, lost, next, block)) == ApplyAll(mid, UnbindWrites(mid, lost))
  {
    var bind := BindWrites(Rebound(tb, lost, next, block));
    ApplyConcat(tb, bind, UnbindWrites(ApplyAll(tb, bind), lost));
  }

  /** Recovery of a bound wallet carries its identity over to the new one exactly when that is another
      wallet; to itself it leaves the wallet without one. */
  lemma {:induction false} RecoverCarriesExactly(tb: Table, lost: Addr, next: Addr, block: nat)
    requires IdentityOf(tb, lost).Some?
    ensures var after := ApplyAll(tb, RecoverWrites(tb, lost, next, block));
      && (IdentityOf(after, next) == Some(Rebound(tb, lost, next, block)) <==> lost != next)
      && IdentityOf(after, lost).None?
      && forall w: Addr :: w != lost && w != next ==> IdentityOf(after, w) == IdentityOf(tb, w)
  {
    var id := Rebound(tb, lost, next, block);
    var mid := ApplyAll(tb, BindWrites(id));
    RecoverApplied(tb, lost, next, block);
    forall w: Addr
      ensures IdentityOf(ApplyAll(tb, RecoverWrites(tb, lost, next, block)), w)
           == if w == lost then None else if w == next then Some(id) else IdentityOf(tb, w)
    {
      BindApplied(tb, id, 0, w);
      UnbindApplied(mid, lost, 0, w);
    }
  }

  /** Every change keeps every bound wallet listed under its country. */
  lemma {:induction false} ListedKept(tb: Table, x: Change)
    requires ListedAll(tb)
    ensures ListedAll(ApplyAll(tb, ChangeWrites(tb, x)))
  {
    match x
    case Bind(id) => ListedBind(tb, id);
    case Unbind(v) => ListedUnbind(tb, v);
    case Recover(lost, next, b) =>
      if IdentityOf(tb, lost).Some? {
        RecoverApplied(tb, lost, next, b);
        ListedBind(tb, Rebound(tb, lost, next, b));
        ListedUnbind(ApplyAll(tb, BindWrites(Rebound(tb, lost, next, b))), lost);
      }
  }

  lemma {:induction false} ListedBind(tb: Table, id: Identity)
    requires ListedAll(tb)
    ensures ListedAll(ApplyAll(tb, BindWrites(id)))
  {
    forall w: Addr ensures ListedAt(ApplyAll(tb, BindWrites(id)), w) {
      assert ListedAt(tb, w);
      BindApplied(tb, id, if IdentityOf(tb, w).Some? then IdentityOf(tb, w).value.country else 0, w);
      BindApplied(tb, id, id.country, w);
    }
  }

  lemma {:induction false} ListedUnbind(tb: Table, v: Addr)
    requires ListedAll(tb)
    ensures ListedAll(ApplyAll(tb, UnbindWrites(tb, v)))
  {
    forall w: Addr ensures ListedAt(ApplyAll(tb, UnbindWrites(tb, v)), w) {
      assert ListedAt(tb, w);
      UnbindApplied(tb, v, if IdentityOf(tb, w).Some? then IdentityOf(tb, w).value.country else 0, w);
    }
  }

  lemma {:induction false} CleanBind(tb: Table, id: Identity)
    requires Clean(tb)
    ensures Free(tb, id.wallet, id.country) ==> Clean(ApplyAll(tb, BindWrites(id)))
    ensures !Free(tb, id.wallet, id.country) && ListedAll(tb) ==>
      !TruthfulAt(ApplyAll(tb, BindWrites(id)), IdentityOf(tb, id.wallet).value.country, id.wallet)
  {
    var after := ApplyAll(tb, BindWrites(id));
    if Free(tb, id.wallet, id.country) {
      forall c: nat, w: Addr ensures CleanAt(after, c, w) {
        assert CleanAt(tb, c, w);
        BindApplied(tb, id, c, w);
      }
    } else if ListedAll(tb) {
      assert ListedAt(tb, id.wallet);
      BindApplied(tb, id, IdentityOf(tb, id.wallet).value.country, id.wallet);
    }
  }

  lemma {:induction false} CleanUnbind(tb: Table, v: Addr)
    requires Clean(tb)
    ensures Clean(ApplyAll(tb, UnbindWrites(tb, v)))
  {
    forall c: nat, w: Addr ensures CleanAt(ApplyAll(tb, UnbindWrites(tb, v)), c, w) {
      assert CleanAt(tb, c, w);
      UnbindApplied(tb, v, c, w);
    }
  }

  lemma CleanIsTruthful(tb: Table)
    requires Clean(tb)
    ensures Truthful(tb)
  {
    forall c: nat, w: Addr ensures TruthfulAt(tb, c, w) { assert CleanAt(tb, c, w); }
  }

  /** From a clean index, a change keeps the listings truthful exactly when it is guarded; and then
      the index stays clean. */
  lemma {:induction false} GuardExact(tb: Table, x: Change)
    requires Clean(tb) && ListedAll(tb)
    ensures var after := ApplyAll(tb, ChangeWrites(tb, x));
      (Truthful(after) <==> Guarded(tb, x)) && (Guarded(tb, x) ==> Clean(after))
  {
    var after := ApplyAll(tb, ChangeWrites(tb, x));
    match x {
      case Bind(id) => CleanBind(tb, id);
      case Unbind(v) => CleanUnbind(tb, v);
      case Recover(lost, next, b) =>
        if IdentityOf(tb, lost).Some? {
          RecoverApplied(tb, lost, next, b);
          var id := Rebound(tb, lost, next, b);
          var mid := ApplyAll(tb, BindWrites(id));
          CleanBind(tb, id);
          if Guarded(tb, x) {
            CleanUnbind(mid, lost);
          } else {
            var c := IdentityOf(tb, next).value.country;
            UnbindApplied(mid, lost, c, next);
            assert !TruthfulAt(after, c, next);
          }
        }
    }
    if Guarded(tb, x) { CleanIsTruthful(after); }
  }

  /** The listing of every country is exact precisely when the index is truthful. */
  lemma ExactIffTruthful(tb: Table, c: nat, all: seq<Identity>)
    requires Typed(tb) && ListedAll(tb) && IsCountryList(tb, c, all)
    ensures Exact(tb, c, all) <==> forall w: Addr :: TruthfulAt(tb, c, w)
  {
    forall id: Identity | IdentityOf(tb, id.wallet) == Some(id) && id.country == c ensures id in all {
      assert ListedAt(tb, id.wallet);
      assert ListedUnder(tb, c, id);
    }
    if forall w: Addr :: TruthfulAt(tb, c, w) {
      forall id | id in all ensures IdentityOf(tb, id.wallet) == Some(id) && id.country == c {
        assert ListedUnder(tb, c, id) && TruthfulAt(tb, c, id.wallet);
      }
    } else {
      var w: Addr :| !TruthfulAt(tb, c, w);
      var id := IdentityOf(tb, w).value;
      assert Fits(IdentityKey(w), tb[IdentityKey(w)]);
      assert ListedUnder(tb, c, id) && id in all;
    }
  }

  /** A wallet bound in one country and then in another, in an empty store: it is reached under both. */
  lemma RebindStale(id: Identity, other: Identity)
    requires id.wallet == other.wallet && id.country != other.country
    ensures var tb := ApplyAll(ApplyAll(map[], BindWrites(id)), BindWrites(other));
      ListedUnder(tb, id.country, other) && ListedUnder(tb, other.country, other) && !Truthful(tb)
  {
    var tb := ApplyAll(ApplyAll(map[], BindWrites(id)), BindWrites(other));
    BindApplied(map[], id, id.country, id.wallet);
    BindApplied(ApplyAll(map[], BindWrites(id)), other, id.country, id.wallet);
    BindApplied(ApplyAll(map[], BindWrites(id)), other, other.country, id.wallet);
    assert !TruthfulAt(tb, id.country, id.wallet);
  }

  // ---------- runs of logs ----------

  predicate IdentityRow(k: Key) { k.IdentityKey? || k.CountryKey? }

  function ChangeOf(l: Log): Option<Change> {
    if !IsIdentity(l.sig) || |l.args| < RecordNeeds(l.sig) then None
    else if l.sig == IdentityBound then
      Some(Bind(Identity(AddrText(l.args[0]), AddrText(l.args[1]), Word(l.data, 0) % 0x1_0000, l.block)))
    else if l.sig == IdentityUnbound then Some(Unbind(AddrText(l.args[0])))
    else Some(Recover(AddrText(l.args[0]), AddrText(l.args[1]), l.block))
  }

  /** What a table says about identities. */
  predicate SameAt(s: Table, t: Table, c: nat, w: Addr) {
    IdentityOf(s, w) == IdentityOf(t, w) && (CountryKey(c, w) in s <==> CountryKey(c, w) in t)
  }

  lemma {:induction false} AsideKeeps(tb: Table, ws: seq<Write>, c: nat, w: Addr)
    requires forall i :: 0 <= i < |ws| ==> !IdentityRow(ws[i].key)
    ensures SameAt(ApplyAll(tb, ws), tb, c, w)
  {
    ApplyElsewhere(tb, ws, IdentityKey(w));
    ApplyElsewhere(tb, ws, CountryKey(c, w));
  }

  lemma RestAside(l: Log)
    ensures forall i :: 0 <= i < |Rest(l)| ==> !IdentityRow(Rest(l)[i].key)
  {
  }

  lemma OtherAside(tb: Table, l: Log)
    requires ChangeOf(l).None?
    ensures forall i :: 0 <= i < |LogWrites(tb, l)| ==> !IdentityRow(LogWrites(tb, l)[i].key)
  {
    if LedgerOp(l).Some? || l.sig == ForcedTransfer || l.sig == NoTopics {
      TokenLogKeys(tb, l);
    } else {
      LogSplit(tb, l);
      RestAside(l);
      RecordAside(tb, l);
    }
  }

  lemma RecordAside(tb: Table, l: Log)
    requires ChangeOf(l).None?
    ensures forall i :: 0 <= i < |RecordPart(tb, l)| ==> !IdentityRow(RecordPart(tb, l)[i].key)
  {
  }

  /** Handling a log is its change to the identities and nothing else there. */
  lemma {:induction false} LogChanges(tb: Table, l: Log, c: nat, w: Addr)
    ensures SameAt(ApplyAll(tb, LogWrites(tb, l)),
                   if ChangeOf(l).Some? then ApplyAll(tb, ChangeWrites(tb, ChangeOf(l).value)) else tb, c, w)
  {
    match ChangeOf(l)
    case Some(x) =>
      LogSplit(tb, l);
      assert RecordPart(tb, l) == ChangeWrites(tb, x);
      ApplyConcat(tb, RecordPart(tb, l), Rest(l));
      RestAside(l);
      AsideKeeps(ApplyAll(tb, RecordPart(tb, l)), Rest(l), c, w);
    case None =>
      OtherAside(tb, l);
      AsideKeeps(tb, LogWrites(tb, l), c, w);
  }

  lemma SameListed(s: Table, t: Table)
    requires forall c: nat, w: Addr :: SameAt(s, t, c, w)
    ensures ListedAll(s) <==> ListedAll(t)
    ensures Clean(s) <==> Clean(t)
    ensures Truthful(s) <==> Truthful(t)
  {
    forall c: nat, w: Addr ensures TruthfulAt(s, c, w) <==> TruthfulAt(t, c, w) {
      assert SameAt(s, t, c, w);
    }
    forall w: Addr ensures ListedAt(s, w) <==> ListedAt(t, w) {
      assert SameAt(s, t, if IdentityOf(t, w).Some? then IdentityOf(t, w).value.country else 0, w);
    }
    forall c: nat, w: Addr ensures CleanAt(s, c, w) <==> CleanAt(t, c, w) {
      assert SameAt(s, t, c, w);
    }
  }

  /** Every identity change of the run is guarded where it happens. */
  predicate GuardedRun(tb: Table, logs: seq<Log>) {
    logs == [] ||
    (var l, mid := logs[|logs| - 1], HandleAll(tb, logs[..|logs| - 1]);
     GuardedRun(tb, logs[..|logs| - 1]) && (ChangeOf(l).Some? ==> Guarded(mid, ChangeOf(l).value)))
  }

  /** After one more log: listed as before, and clean if it was clean and the change guarded. */
  lemma {:induction false} LogKeeps(tb: Table, l: Log)
    requires ListedAll(tb)
    ensures ListedAll(ApplyAll(tb, LogWrites(tb, l)))
    ensures Clean(tb) && (ChangeOf(l).Some? ==> Guarded(tb, ChangeOf(l).value)) ==>
      Clean(ApplyAll(tb, LogWrites(tb, l)))
    ensures Clean(tb) ==>
      (Truthful(ApplyAll(tb, LogWrites(tb, l))) <==> (ChangeOf(l).Some? ==> Guarded(tb, ChangeOf(l).value)))
  {
    var after := ApplyAll(tb, LogWrites(tb, l));
    var there := if ChangeOf(l).Some? then ApplyAll(tb, ChangeWrites(tb, ChangeOf(l).value)) else tb;
    forall c: nat, w: Addr ensures SameAt(after, there, c, w) { LogChanges(tb, l, c, w); }
    SameListed(after, there);
    if ChangeOf(l).Some? {
      ListedKept(tb, ChangeOf(l).value);
      if Clean(tb) { GuardExact(tb, ChangeOf(l).value); }
    } else if Clean(tb) {
      CleanIsTruthful(tb);
    }
  }

  /** On every run each bound wallet is listed under its country; on a guarded run from an empty
      store the index is clean as well. */
  lemma {:induction false} RunKeeps(logs: seq<Log>)
    ensures ListedAll(HandleAll(map[], logs))
    ensures GuardedRun(map[], logs) ==> Clean(HandleAll(map[], logs))
  {
    if logs != [] {
      RunKeeps(logs[..|logs| - 1]);
      LogKeeps(HandleAll(map[], logs[..|logs| - 1]), logs[|logs| - 1]);
    }
  }

  /** The listings are truthful all along a run from an empty store exactly when it is guarded. */
  lemma {:induction false} GuardedRunExactly(logs: seq<Log>)
    ensures GuardedRun(map[], logs) <==> TruthfulThroughout(logs)
  {
    if logs == [] {
      CleanIsTruthful(map[]);
    } else {
      var init, l := logs[..|logs| - 1], logs[|logs| - 1];
      GuardedRunExactly(init);
      RunKeeps(init);
      if GuardedRun(map[], init) { LogKeeps(HandleAll(map[], init), l); }
    }
  }

  /** After every log of the run. */
  ghost predicate TruthfulThroughout(logs: seq<Log>) {
    Truthful(HandleAll(map[], logs)) && (logs == [] || TruthfulThroughout(logs[..|logs| - 1]))
  }

  /** On a guarded run the listing of a country is exactly the identities bound in it. */
  lemma {:induction false} GuardedRunExact(logs: seq<Log>, c: nat, all: seq<Identity>)
    requires GuardedRun(map[], logs)
    requires Typed(HandleAll(map[], logs)) && IsCountryList(HandleAll(map[], logs), c, all)
    ensures Exact(HandleAll(map[], logs), c, all)
  {
    var tb := HandleAll(map[], logs);
    RunKeeps(logs);
    CleanIsTruthful(tb);
    ExactIffTruthful(tb, c, all);
  }
}
