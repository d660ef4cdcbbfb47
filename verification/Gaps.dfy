/** The secondary indexes over runs that are stopped.

The identity row is written before its country entry, and an event before its index entries. A stop
in between leaves a gap, which is closed when the log is handled again. It stays open only if the
restart leaves the log out. So the indexes are complete after any life in which no stop falls into
such a gap of a log that is left out.
*/
module Gaps {
  import opened Keys
  import opened Rows
  import opened Plans
  import opened EventIndex
  import opened Logs
  import opened Replay
  import opened IndexRuns
  import opened Identities
  import opened Sessions
  import opened Chains
  import opened Delivery
  import opened Lives

  // ---------- complete but for one log ----------

  /** The position of the log's event, if it leaves one. */
  predicate EventOf(o: Option<Log>, b: nat, i: nat) {
    o.Some? && GenericOf(o.value).Some? && o.value.block == b && o.value.index == i
  }

  ghost predicate EntriesBut(tb: Table, o: Option<Log>) {
    forall b: nat, i: nat :: EventOf(o, b, i) || EntriesAt(tb, b, i)
  }

  /** A wallet whose binding the log changes, and has not finished changing. */
  predicate Unfinished(tb: Table, o: Option<Log>, w: Addr) {
    o.Some? && ChangeOf(o.value).Some? && StillOpen(tb, ChangeOf(o.value).value, w)
  }

  predicate StillOpen(tb: Table, x: Change, w: Addr) {
    match x
    case Bind(id) => w == id.wallet
    case Unbind(v) => w == v
    case Recover(lost, next, _) => IdentityOf(tb, lost).Some? && (w == lost || w == next)
  }

  ghost predicate ListedBut(tb: Table, o: Option<Log>) {
    forall w: Addr :: Unfinished(tb, o, w) || ListedAt(tb, w)
  }

  /** No index entry is missing, except for what this log is still to bring. */
  ghost predicate CompleteBut(tb: Table, o: Option<Log>) { EntriesBut(tb, o) && ListedBut(tb, o) }

  lemma CompleteNow(tb: Table)
    ensures CompleteBut(tb, None) <==> IndexComplete(tb) && ListedAll(tb)
  {
    if CompleteBut(tb, None) {
      forall b: nat, i: nat ensures EntriesAt(tb, b, i) { assert EventOf(None, b, i) || EntriesAt(tb, b, i); }
      AllEntries(tb);
      forall w: Addr ensures ListedAt(tb, w) { assert Unfinished(tb, None, w) || ListedAt(tb, w); }
    }
    if IndexComplete(tb) && ListedAll(tb) {
      forall b: nat, i: nat ensures EventOf(None, b, i) || EntriesAt(tb, b, i) { }
    }
  }

  // ---------- the event indexes through a log ----------

  lemma CutEntries(tb: Table, l: Log, n: nat, o: Option<Log>)
    requires EntriesBut(tb, o) && (o.None? || o == Some(l)) && n <= |LogWrites(tb, l)|
    ensures EntriesBut(Stopped(tb, l, n), Some(l))
  {
    forall b: nat, i: nat | !EventOf(Some(l), b, i) ensures EntriesAt(Stopped(tb, l, n), b, i) {
      assert EventOf(o, b, i) || EntriesAt(tb, b, i);
      OtherEntries(tb, l, n, b, i);
    }
  }

  lemma EntriesClosed(tb: Table, l: Log, n: nat)
    requires n <= |LogWrites(tb, l)| && EntriesBut(Stopped(tb, l, n), Some(l))
    requires GenericOf(l).Some? ==> EntriesAt(Stopped(tb, l, n), l.block, l.index)
    ensures EntriesBut(Stopped(tb, l, n), None)
  {
    forall b: nat, i: nat ensures EntriesAt(Stopped(tb, l, n), b, i) {
      assert EventOf(Some(l), b, i) || EntriesAt(Stopped(tb, l, n), b, i);
    }
  }

  lemma {:induction false} FullEntries(tb: Table, l: Log, o: Option<Log>)
    requires EntriesBut(tb, o) && (o.None? || o == Some(l))
    ensures EntriesBut(ApplyAll(tb, LogWrites(tb, l)), None)
  {
    var ws := LogWrites(tb, l);
    assert ws[..|ws|] == ws;
    CutEntries(tb, l, |ws|, o);
    if GenericOf(l).Some? { OwnEntries(tb, l); }
    EntriesClosed(tb, l, |ws|);
  }

  /** The writes of a log outside the ledger have three parts; a stop after `n` of them is in none if the
      record is complete and the event either not begun or complete. */
  predicate Whole(tb: Table, l: Log, n: nat) {
    HasParts(l) ==>
      var r, g := |RecordPart(tb, l)|, |GenericPart(l)|;
      n == r || n >= r + g
  }

  predicate HasParts(l: Log) { LedgerOp(l).None? && l.sig != ForcedTransfer && l.sig != NoTopics }

  lemma EventHasParts(l: Log)
    requires GenericOf(l).Some? || ChangeOf(l).Some?
    ensures HasParts(l)
  {
  }

  lemma {:induction false} RecordPrefix(tb: Table, l: Log)
    requires HasParts(l)
    ensures |RecordPart(tb, l)| <= |LogWrites(tb, l)|
    ensures Stopped(tb, l, |RecordPart(tb, l)|) == ApplyAll(tb, RecordPart(tb, l))
  {
    LogSplit(tb, l);
    assert LogWrites(tb, l)[..|RecordPart(tb, l)|] == RecordPart(tb, l);
  }

  lemma {:induction false} RecordEntries(tb: Table, l: Log)
    requires GenericOf(l).Some? && EntriesAt(tb, l.block, l.index)
    ensures EntriesAt(ApplyAll(tb, RecordPart(tb, l)), l.block, l.index)
  {
    var r := RecordPart(tb, l);
    RecordNoEvents(tb, l);
    ApplyElsewhere(tb, r, GenericKey(l.block, l.index));
    if GenericKey(l.block, l.index) in tb && tb[GenericKey(l.block, l.index)].Generic? {
      var e := tb[GenericKey(l.block, l.index)].generic;
      if e.token != "" { ApplyElsewhere(tb, r, GeTokenKey(e.token, l.block, l.index)); }
      if e.addr != "" { ApplyElsewhere(tb, r, GeAddrKey(e.addr, l.block, l.index)); }
    }
  }

  lemma EventDone(tb: Table, l: Log, n: nat)
    requires GenericOf(l).Some? && |RecordPart(tb, l)| + |GenericPart(l)| <= n < |LogWrites(tb, l)|
    ensures EntriesAt(Stopped(tb, l, n), l.block, l.index)
  {
    LogSplit(tb, l);
    var r, g, ws := RecordPart(tb, l), GenericPart(l), LogWrites(tb, l);
    assert ws == r + g + [CursorWrite(l.block)];
    assert n == |r| + |g| && ws[..n] == r + g;
    ApplyConcat(tb, r, g);
    GenericComplete(ApplyAll(tb, r), l);
  }

  lemma WholeEntries(tb: Table, l: Log, n: nat)
    requires EntriesBut(tb, None) && Whole(tb, l, n) && n < |LogWrites(tb, l)|
    ensures EntriesBut(Stopped(tb, l, n), None)
  {
    CutEntries(tb, l, n, None);
    if GenericOf(l).Some? {
      EventHasParts(l);
      assert EventOf(None, l.block, l.index) || EntriesAt(tb, l.block, l.index);
      if n == |RecordPart(tb, l)| {
        RecordPrefix(tb, l);
        RecordEntries(tb, l);
      } else {
        EventDone(tb, l, n);
      }
    }
    EntriesClosed(tb, l, n);
  }

  // ---------- the country index through a log ----------

  /** A wallet that the writes do not mention stays listed, or unlisted. */
  lemma {:induction false} ListedElsewhere(tb: Table, ws: seq<Write>, w: Addr)
    requires forall i :: 0 <= i < |ws| ==> !MentionsWallet(ws[i].key, w)
    ensures IdentityOf(ApplyAll(tb, ws), w) == IdentityOf(tb, w)
    ensures ListedAt(ApplyAll(tb, ws), w) <==> ListedAt(tb, w)
  {
    ApplyElsewhere(tb, ws, IdentityKey(w));
    if IdentityOf(tb, w).Some? { ApplyElsewhere(tb, ws, CountryKey(IdentityOf(tb, w).value.country, w)); }
  }

  predicate MentionsWallet(k: Key, w: Addr) { k == IdentityKey(w) || (k.CountryKey? && k.wallet == w) }

  /** The wallets whose rows a change writes. */
  predicate Touches(x: Change, w: Addr) {
    match x
    case Bind(id) => w == id.wallet
    case Unbind(v) => w == v
    case Recover(lost, next, _) => w == lost || w == next
  }

  lemma ChangeMentions(tb: Table, x: Change, w: Addr)
    requires !Touches(x, w)
    ensures forall i :: 0 <= i < |ChangeWrites(tb, x)| ==> !MentionsWallet(ChangeWrites(tb, x)[i].key, w)
  {
    match x
    case Bind(_) =>
    case Unbind(_) =>
    case Recover(lost, next, b) =>
      if IdentityOf(tb, lost).Some? {
        var bind := BindWrites(Rebound(tb, lost, next, b));
        var ub := UnbindWrites(ApplyAll(tb, bind), lost);
        assert RecoverWrites(tb, lost, next, b) == bind + ub;
      }
  }

  /** A complete change leaves its own wallets listed, whatever was missing before. */
  lemma {:induction false} ChangeCloses(tb: Table, x: Change, w: Addr)
    requires ListedAt(tb, w) || StillOpen(tb, x, w)
    ensures ListedAt(ApplyAll(tb, ChangeWrites(tb, x)), w)
  {
    match x
    case Bind(id) => ListedThroughBind(tb, id, w);
    case Unbind(v) => ListedThroughUnbind(tb, v, w);
    case Recover(lost, next, b) =>
      if IdentityOf(tb, lost).Some? {
        var id := Rebound(tb, lost, next, b);
        RecoverApplied(tb, lost, next, b);
        if w == next || ListedAt(tb, w) { ListedThroughBind(tb, id, w); }
        ListedThroughUnbind(ApplyAll(tb, BindWrites(id)), lost, w);
      }
  }

  lemma {:induction false} ListedThroughBind(tb: Table, id: Identity, w: Addr)
    requires w == id.wallet || ListedAt(tb, w)
    ensures ListedAt(ApplyAll(tb, BindWrites(id)), w)
  {
    BindApplied(tb, id, if IdentityOf(tb, w).Some? then IdentityOf(tb, w).value.country else 0, w);
    BindApplied(tb, id, id.country, w);
  }

  lemma {:induction false} ListedThroughUnbind(tb: Table, v: Addr, w: Addr)
    requires w == v || ListedAt(tb, w)
    ensures ListedAt(ApplyAll(tb, UnbindWrites(tb, v)), w)
  {
    UnbindApplied(tb, v, if IdentityOf(tb, w).Some? then IdentityOf(tb, w).value.country else 0, w);
  }

  /** Once its record is complete, a log has listed what it had to. */
  lemma RecordDone(tb: Table, l: Log, n: nat, o: Option<Log>)
    requires ListedBut(tb, o) && (o.None? || o == Some(l)) && n <= |LogWrites(tb, l)|
    requires HasParts(l) ==> n >= |RecordPart(tb, l)|
    ensures ListedBut(Stopped(tb, l, n), None)
  {
    forall w: Addr ensures ListedAt(Stopped(tb, l, n), w) {
      assert Unfinished(tb, o, w) || ListedAt(tb, w);
      if ChangeOf(l).Some? {
        ChangeDone(tb, l, n, w);
      } else {
        OtherAside(tb, l);
        assert forall i :: 0 <= i < n ==> LogWrites(tb, l)[..n][i] == LogWrites(tb, l)[i];
        ListedElsewhere(tb, LogWrites(tb, l)[..n], w);
      }
    }
  }

  lemma ChangeParts(tb: Table, l: Log, n: nat)
    requires ChangeOf(l).Some? && n <= |LogWrites(tb, l)|
    ensures RecordPart(tb, l) == ChangeWrites(tb, ChangeOf(l).value)
    ensures n <= |RecordPart(tb, l)| + |Rest(l)|
    ensures Stopped(tb, l, n) == Replay.Cut(tb, RecordPart(tb, l), Rest(l), n)
  {
    EventHasParts(l);
    LogSplit(tb, l);
  }

  lemma ChangeDone(tb: Table, l: Log, n: nat, w: Addr)
    requires ChangeOf(l).Some? && |RecordPart(tb, l)| <= n <= |LogWrites(tb, l)|
    requires ListedAt(tb, w) || Unfinished(tb, Some(l), w)
    ensures ListedAt(Stopped(tb, l, n), w)
  {
    var x, r := ChangeOf(l).value, RecordPart(tb, l);
    ChangeParts(tb, l, n);
    ChangeCloses(tb, x, w);
    CutSplit(tb, r, Rest(l), n);
    RestListed(ApplyAll(tb, r), l, n - |r|, w);
  }

  lemma {:induction false} RestListed(tb: Table, l: Log, m: nat, w: Addr)
    requires ListedAt(tb, w) && m <= |Rest(l)|
    ensures ListedAt(ApplyAll(tb, Rest(l)[..m]), w)
  {
    RestAside(l);
    assert forall i :: 0 <= i < m ==> Rest(l)[..m][i] == Rest(l)[i];
    ListedElsewhere(tb, Rest(l)[..m], w);
  }

  /** Inside its record, what a log has not finished is all that may be missing. */
  lemma CutListed(tb: Table, l: Log, n: nat, o: Option<Log>)
    requires ListedBut(tb, o) && (o.None? || o == Some(l)) && n <= |LogWrites(tb, l)|
    ensures ListedBut(Stopped(tb, l, n), Some(l))
  {
    if HasParts(l) && n < |RecordPart(tb, l)| && ChangeOf(l).Some? {
      forall w: Addr ensures Unfinished(Stopped(tb, l, n), Some(l), w) || ListedAt(Stopped(tb, l, n), w) {
        assert Unfinished(tb, o, w) || ListedAt(tb, w);
        ChangeBegun(tb, l, n, w);
      }
    } else if HasParts(l) && n < |RecordPart(tb, l)| {
      AsideListed(tb, l, n, o);
    } else {
      RecordDone(tb, l, n, o);
      forall w: Addr ensures ListedAt(Stopped(tb, l, n), w) {
        assert Unfinished(Stopped(tb, l, n), None, w) || ListedAt(Stopped(tb, l, n), w);
      }
    }
  }

  lemma AsideListed(tb: Table, l: Log, n: nat, o: Option<Log>)
    requires ListedBut(tb, o) && (o.None? || o == Some(l)) && n <= |LogWrites(tb, l)| && ChangeOf(l).None?
    ensures ListedBut(Stopped(tb, l, n), Some(l))
  {
    forall w: Addr ensures ListedAt(Stopped(tb, l, n), w) {
      assert Unfinished(tb, o, w) || ListedAt(tb, w);
      OtherAside(tb, l);
      assert forall i :: 0 <= i < n ==> LogWrites(tb, l)[..n][i] == LogWrites(tb, l)[i];
      ListedElsewhere(tb, LogWrites(tb, l)[..n], w);
    }
  }

  lemma {:induction false} PartOfChange(tb: Table, x: Change, n: nat, w: Addr)
    requires n < |ChangeWrites(tb, x)| && (ListedAt(tb, w) || Touches(x, w))
    ensures var part := ApplyAll(tb, ChangeWrites(tb, x)[..n]); StillOpen(part, x, w) || ListedAt(part, w)
  {
    var r := ChangeWrites(tb, x);
    if !Touches(x, w) {
      ChangeMentions(tb, x, w);
      assert forall i :: 0 <= i < n ==> r[..n][i] == r[i];
      ListedElsewhere(tb, r[..n], w);
    } else if x.Recover? {
      RecoverCut(tb, x.lost, x.next, x.block, n);
    }
  }

  lemma ChangeBegun(tb: Table, l: Log, n: nat, w: Addr)
    requires ChangeOf(l).Some? && n < |RecordPart(tb, l)| && n <= |LogWrites(tb, l)|
    requires ListedAt(tb, w) || Touches(ChangeOf(l).value, w)
    ensures Unfinished(Stopped(tb, l, n), Some(l), w) || ListedAt(Stopped(tb, l, n), w)
  {
    var x, r := ChangeOf(l).value, RecordPart(tb, l);
    ChangeParts(tb, l, n);
    CutSplit(tb, r, Rest(l), n);
    PartOfChange(tb, x, n, w);
  }

  // ---------- what a log does to both ----------

  lemma {:induction false} FullComplete(tb: Table, l: Log, o: Option<Log>)
    requires CompleteBut(tb, o) && (o.None? || o == Some(l))
    ensures CompleteBut(ApplyAll(tb, LogWrites(tb, l)), None)
  {
    var ws := LogWrites(tb, l);
    assert ws[..|ws|] == ws;
    FullEntries(tb, l, o);
    if HasParts(l) { RecordPrefix(tb, l); }
    RecordDone(tb, l, |ws|, o);
  }

  lemma CutComplete(tb: Table, l: Log, n: nat, o: Option<Log>)
    requires CompleteBut(tb, o) && (o.None? || o == Some(l)) && n <= |LogWrites(tb, l)|
    ensures CompleteBut(Stopped(tb, l, n), Some(l))
  {
    CutEntries(tb, l, n, o);
    CutListed(tb, l, n, o);
  }

  lemma WholeComplete(tb: Table, l: Log, n: nat)
    requires CompleteBut(tb, None) && Whole(tb, l, n) && n < |LogWrites(tb, l)|
    ensures CompleteBut(Stopped(tb, l, n), None)
  {
    WholeEntries(tb, l, n);
    RecordDone(tb, l, n, None);
  }

  lemma {:induction false} CursorComplete(tb: Table, block: nat, o: Option<Log>)
    requires CompleteBut(tb, o)
    ensures CompleteBut(ApplyAll(tb, [CursorWrite(block)]), o)
  {
    var c := [CursorWrite(block)];
    var after := ApplyAll(tb, c);
    forall b: nat, i: nat ensures EventOf(o, b, i) || EntriesAt(after, b, i) {
      assert EventOf(o, b, i) || EntriesAt(tb, b, i);
      if EntriesAt(tb, b, i) { CursorKeepsEntries(tb, block, b, i); }
    }
    forall w: Addr ensures Unfinished(after, o, w) || ListedAt(after, w) {
      assert Unfinished(tb, o, w) || ListedAt(tb, w);
      ListedElsewhere(tb, c, w);
      if o.Some? && ChangeOf(o.value).Some? && ChangeOf(o.value).value.Recover? {
        ListedElsewhere(tb, c, ChangeOf(o.value).value.lost);
      }
    }
  }

  // ---------- lives ----------

  /** What the laws below need of a plan: a complete log closes what is missing, a cut one leaves only its
      own missing, and nothing if the cut is whole. */
  ghost predicate Closes(plan: Plan) {
    forall tb: Table, l: Log, o: Option<Log> {:trigger CompleteBut(tb, o), plan(tb, Deliver(l))} ::
      CompleteBut(tb, o) && (o.None? || o == Some(l)) ==> CompleteBut(ApplyAll(tb, plan(tb, Deliver(l))), None)
  }

  ghost predicate Opens(plan: Plan) {
    forall tb: Table, l: Log, n: nat, o: Option<Log> {:trigger CompleteBut(tb, o), plan(tb, Deliver(l))[..n]} ::
      CompleteBut(tb, o) && (o.None? || o == Some(l)) && n <= |plan(tb, Deliver(l))| ==>
      CompleteBut(ApplyAll(tb, plan(tb, Deliver(l))[..n]), Some(l))
  }

  ghost predicate KeepsWhole(plan: Plan) {
    forall tb: Table, l: Log, n: nat {:trigger Whole(tb, l, n)} ::
      CompleteBut(tb, None) && Whole(tb, l, n) && n < |plan(tb, Deliver(l))| ==>
      CompleteBut(ApplyAll(tb, plan(tb, Deliver(l))[..n]), None)
  }

  lemma HandlingCloses()
    ensures Closes(Handling()) && Opens(Handling()) && KeepsWhole(Handling())
  {
    forall tb: Table, l: Log, o: Option<Log> | CompleteBut(tb, o) && (o.None? || o == Some(l))
      ensures CompleteBut(ApplyAll(tb, Handling()(tb, Deliver(l))), None)
    {
      FullComplete(tb, l, o);
    }
    forall tb: Table, l: Log, n: nat, o: Option<Log>
      | CompleteBut(tb, o) && (o.None? || o == Some(l)) && n <= |Handling()(tb, Deliver(l))|
      ensures CompleteBut(ApplyAll(tb, Handling()(tb, Deliver(l))[..n]), Some(l))
    {
      CutComplete(tb, l, n, o);
    }
    forall tb: Table, l: Log, n: nat
      | CompleteBut(tb, None) && Whole(tb, l, n) && n < |Handling()(tb, Deliver(l))|
      ensures CompleteBut(ApplyAll(tb, Handling()(tb, Deliver(l))[..n]), None)
    {
      WholeComplete(tb, l, n);
    }
  }

  lemma {:induction false} ActsComplete(plan: Plan, todo: seq<Log>, c: nat, x: Table, acts: seq<Act>,
                                        o: Option<Log>)
    requires Closes(plan) && OnlyAdvances(plan) && Legal(todo, c, acts)
    requires CompleteBut(x, o) && ComesFirst(todo, o)
    ensures CompleteBut(Effect(plan, x, acts), if Delivered(acts) == [] then o else None)
  {
    if acts != [] {
      var init := acts[..|acts| - 1];
      var mid := Effect(plan, x, init);
      ActsComplete(plan, todo, c, x, init, o);
      match acts[|acts| - 1] {
        case Deliver(l) =>
        case Advance(b) => CursorComplete(mid, b, if Delivered(init) == [] then o else None);
      }
    }
  }

  /** The stop falls between two acts, or inside a log that the restart takes up, or outside its gaps. */
  predicate WholeStop(plan: Plan, tb: Table, s: Session) {
    match CutPoint(plan, tb, s.acts, s.cut)
    case None => true
    case Some(p) => CursorOf(AfterSession(plan, tb, s)) < p.log.block || Whole(p.before, p.log, p.done)
  }

  predicate WholeLife(plan: Plan, tb: Table, life: seq<Session>) {
    life == [] ||
    (WholeLife(plan, tb, life[..|life| - 1]) &&
     WholeStop(plan, AfterLife(plan, tb, life[..|life| - 1]), life[|life| - 1]))
  }

  /** The log the next session takes up again: the last that was cut above the cursor, until a session
      completes a log. */
  function StillPending(plan: Plan, tb: Table, s: Session, o: Option<Log>): Option<Log> {
    match CutPoint(plan, tb, s.acts, s.cut)
    case Some(p) => if CursorOf(AfterSession(plan, tb, s)) < p.log.block then Some(p.log) else None
    case None => if Completed(plan, tb, s.acts, s.cut) == [] then o else None
  }

  function Pending(plan: Plan, tb: Table, life: seq<Session>): Option<Log> {
    if life == [] then None
    else StillPending(plan, AfterLife(plan, tb, life[..|life| - 1]), life[|life| - 1],
                      Pending(plan, tb, life[..|life| - 1]))
  }

  lemma SessionComplete(plan: Plan, chain: seq<Log>, startBlock: nat, x: Table, s: Session, o: Option<Log>)
    requires Regular(plan) && Closes(plan) && Opens(plan) && KeepsWhole(plan)
    requires GoodChain(chain) && StartOk(startBlock, CursorOf(x)) && Follows(plan, chain, startBlock, x, s)
    requires WholeStop(plan, x, s)
    requires CompleteBut(x, o) && ComesFirst(Todo(chain, startBlock, CursorOf(x)), o)
    ensures var after, still := AfterSession(plan, x, s), StillPending(plan, x, s, o);
      CompleteBut(after, still) && ComesFirst(Todo(chain, startBlock, CursorOf(after)), still)
  {
    var todo, c := Todo(chain, startBlock, CursorOf(x)), CursorOf(x);
    var j, n := StopFacts(plan, chain, startBlock, x, s);
    var done := s.acts[..j];
    var mid, before := Effect(plan, x, done), if Delivered(done) == [] then o else None;
    CutPointAt(plan, x, s.acts, s.cut, j, n);
    ActsComplete(plan, todo, c, x, done, o);
    RestartBegins(chain, startBlock, c, done);
    if Delivered(done) == [] && todo != [] { NoDeliveryBelow(chain, startBlock, c, done); }
    StoppedWhere(plan, x, s.acts, s.cut, j, n);
    if n > 0 {
      CutCloses(plan, mid, s.acts[j].log, n, before, CursorAfter(c, done) < s.acts[j].log.block);
    }
  }

  /** At a cut: the log is pending, or, left out and whole, nothing is missing. */
  lemma {:induction false} CutCloses(plan: Plan, mid: Table, l: Log, n: nat, o: Option<Log>, again: bool)
    requires Opens(plan) && KeepsWhole(plan) && n < |plan(mid, Deliver(l))|
    requires CompleteBut(mid, o) && (o.None? || o == Some(l))
    requires !again ==> o.None? && Whole(mid, l, n)
    ensures CompleteBut(ApplyAll(mid, plan(mid, Deliver(l))[..n]), if again then Some(l) else None)
  {
  }

  lemma {:induction false} LifeCompleteBut(plan: Plan, chain: seq<Log>, startBlock: nat, tb: Table,
                                           life: seq<Session>)
    requires Regular(plan) && Closes(plan) && Opens(plan) && KeepsWhole(plan)
    requires GoodChain(chain) && StartOk(startBlock, CursorOf(tb)) && CompleteBut(tb, None)
    requires Life(plan, chain, startBlock, tb, life) && WholeLife(plan, tb, life)
    ensures var after, o := AfterLife(plan, tb, life), Pending(plan, tb, life);
      CompleteBut(after, o) && ComesFirst(Todo(chain, startBlock, CursorOf(after)), o)
  {
    if life != [] {
      var init := life[..|life| - 1];
      LifeCompleteBut(plan, chain, startBlock, tb, init);
      LifeStartOk(plan, chain, startBlock, tb, init);
      SessionComplete(plan, chain, startBlock, AfterLife(plan, tb, init), life[|life| - 1],
                      Pending(plan, tb, init));
    }
  }

  /** After any life in which no stop falls into a gap of a log that is left out: with nothing pending, each
      bound wallet is listed under its country and each event under its token and address; otherwise
      only what the pending log, the first to be taken up, is to bring can be missing. */
  lemma {:induction false} LifeComplete(chain: seq<Log>, startBlock: nat, tb: Table, life: seq<Session>)
    requires GoodChain(chain) && StartOk(startBlock, CursorOf(tb)) && IndexComplete(tb) && ListedAll(tb)
    requires Life(Handling(), chain, startBlock, tb, life) && WholeLife(Handling(), tb, life)
    ensures var after, o := AfterLife(Handling(), tb, life), Pending(Handling(), tb, life);
      && (o.None? ==> IndexComplete(after) && ListedAll(after))
      && CompleteBut(after, o) && ComesFirst(Todo(chain, startBlock, CursorOf(after)), o)
  {
    HandlingRegular();
    HandlingCloses();
    CompleteNow(tb);
    LifeCompleteBut(Handling(), chain, startBlock, tb, life);
    CompleteNow(AfterLife(Handling(), tb, life));
  }

  /** A gap: a binding cut after its first write, and an event cut after its primary. */
  lemma GapsOpen(id: Identity, e: GenericEvent)
    requires e.token != ""
    ensures !ListedAll(ApplyAll(map[], BindWrites(id)[..1]))
    ensures !IndexComplete(ApplyAll(map[], GenericWrites(e)[..1]))
  {
    assert BindWrites(id)[..1] == [BindWrites(id)[0]] && GenericWrites(e)[..1] == [PrimaryWrite(e)];
    OneWrite(map[], BindWrites(id)[0]);
    OneWrite(map[], PrimaryWrite(e));
    assert !ListedAt(ApplyAll(map[], [BindWrites(id)[0]]), id.wallet);
    var tb := ApplyAll(map[], [PrimaryWrite(e)]);
    assert GenericKey(e.block, e.index) in tb && tb[GenericKey(e.block, e.index)] == Generic(e);
  }
}
