/** What the store holds after any number of sessions and stops.

A stop may leave some writes of a log on disk. If handling that log again mends what the stop left,
and the restart takes it up again, then a life of the store, however often it was stopped, leaves
the rows that handling the completed logs one after the other leaves; a log cut short last is
owed, and handling it once more settles it. Without that, the accounts still follow: each stop
adds the part of the step that was on disk.
*/
module Lives {
  import opened Keys
  import opened Rows
  import opened Ledger
  import opened Plans
  import opened Accounts
  import opened Logs
  import opened Replay
  import opened EventStream
  import opened Chains
  import opened Sessions
  import opened Delivery
  import opened Runs

  // ---------- what is needed of a plan ----------

  /** After `n` of its writes, carrying the act out again ends where it would have ended. */
  predicate MendsAt(plan: Plan, a: Act, tb: Table, n: nat) {
    && n <= |plan(tb, a)|
    && var mid := ApplyAll(tb, plan(tb, a)[..n]);
       ApplyAll(mid, plan(mid, a)) == ApplyAll(tb, plan(tb, a))
  }

  /** An act that can be carried out: the log does not fail in its handler, the block is a number. */
  predicate Sane(a: Act) { match a case Deliver(l) => Readable(l) case Advance(b) => b < TWO64 }

  /** Acts do not look at the cursor, move nothing else when they advance it, and write what fits. */
  ghost predicate Blind(plan: Plan) {
    forall s: Table, t: Table, a: Act {:trigger plan(s, a), plan(t, a)} ::
      SameButCursor(s, t) ==> plan(s, a) == plan(t, a)
  }

  ghost predicate OnlyAdvances(plan: Plan) {
    forall tb: Table, b: nat :: plan(tb, Advance(b)) == [CursorWrite(b)]
  }

  ghost predicate Fitting(plan: Plan) {
    forall tb: Table, a: Act :: Typed(tb) && Sane(a) ==> AllFit(plan(tb, a))
  }

  ghost predicate Regular(plan: Plan) {
    CursorLast(plan) && Blind(plan) && OnlyAdvances(plan) && Fitting(plan)
  }

  lemma HandlingRegular()
    ensures Regular(Handling())
  {
    HandlingCursorLast();
    forall s: Table, t: Table, a: Act | SameButCursor(s, t) ensures Handling()(s, a) == Handling()(t, a) {
      if a.Deliver? { SameLogWrites(s, t, a.log); }
    }
    forall tb: Table, a: Act | Typed(tb) && Sane(a) ensures AllFit(Handling()(tb, a)) {
      if a.Deliver? { LogFits(tb, a.log); }
    }
  }

  // ---------- tables stay typed ----------

  lemma {:induction false} ActTyped(plan: Plan, tb: Table, a: Act, n: nat)
    requires Fitting(plan) && Typed(tb) && Sane(a) && n <= |plan(tb, a)|
    ensures Typed(ApplyAll(tb, plan(tb, a)[..n]))
  {
    PartTyped(tb, plan(tb, a), n);
  }

  lemma {:induction false} EffectTyped(plan: Plan, tb: Table, acts: seq<Act>)
    requires Fitting(plan) && Typed(tb) && forall a :: a in acts ==> Sane(a)
    ensures Typed(Effect(plan, tb, acts))
  {
    if acts != [] {
      var init, a := acts[..|acts| - 1], acts[|acts| - 1];
      var mid := Effect(plan, tb, init);
      assert a in acts;
      EffectTyped(plan, tb, init);
      ActTyped(plan, mid, a, |plan(mid, a)|);
      assert plan(mid, a)[..|plan(mid, a)|] == plan(mid, a);
    }
  }

  lemma {:induction false} SessionSane(stream: seq<Log>, c: nat, acts: seq<Act>)
    requires Legal(stream, c, acts) && Survives(acts)
    ensures forall a :: a in acts ==> Sane(a)
  {
    if acts != [] {
      var init, a := acts[..|acts| - 1], acts[|acts| - 1];
      assert acts == init + [a];
      assert forall k :: k in init ==> k in acts;
      assert a in acts;
      SessionSane(stream, c, init);
    }
  }

  // ---------- the log that is owed ----------

  /** The rows are those of `plain`, or they will be once the owed log is handled in both. */
  ghost predicate Holds(plan: Plan, x: Table, plain: Table, owed: Option<Log>) {
    match owed
    case None => SameButCursor(x, plain)
    case Some(l) =>
      var a := Deliver(l);
      SameButCursor(ApplyAll(x, plan(x, a)), ApplyAll(plain, plan(plain, a)))
  }

  /** The owed log is the first that the stream brings. */
  predicate ComesFirst(todo: seq<Log>, owed: Option<Log>) {
    owed.Some? ==> todo != [] && todo[0] == owed.value
  }

  lemma {:induction false} DeliverSettles(plan: Plan, x: Table, plain: Table, l: Log, owed: Option<Log>)
    requires Blind(plan) && Holds(plan, x, plain, owed) && (owed.None? || owed == Some(l))
    ensures Holds(plan, ApplyAll(x, plan(x, Deliver(l))), ApplyAll(plain, plan(plain, Deliver(l))), None)
  {
    if owed.None? { StaysSame(x, plain, plan(x, Deliver(l))); }
  }

  lemma {:induction false} AdvanceKeeps(plan: Plan, x: Table, plain: Table, b: nat, owed: Option<Log>)
    requires Blind(plan) && Holds(plan, x, plain, owed)
    ensures Holds(plan, ApplyAll(x, [CursorWrite(b)]), plain, owed)
  {
    var y := ApplyAll(x, [CursorWrite(b)]);
    CursorMoved(x, b);
    match owed {
      case None => SameThrough(y, x, plain);
      case Some(l) =>
        var a := Deliver(l);
        assert plan(y, a) == plan(x, a);
        StaysSame(y, x, plan(x, a));
        SameThrough(ApplyAll(y, plan(y, a)), ApplyAll(x, plan(x, a)), ApplyAll(plain, plan(plain, a)));
    }
  }

  /** The table after handling some logs one after the other. */
  ghost function Plain(plan: Plan, tb: Table, logs: seq<Log>): Table { Effect(plan, tb, Deliveries(logs)) }

  lemma PlainNext(plan: Plan, tb: Table, logs: seq<Log>, l: Log)
    ensures Plain(plan, tb, logs + [l]) == ApplyAll(Plain(plan, tb, logs), plan(Plain(plan, tb, logs), Deliver(l)))
  {
    assert Deliveries(logs + [l])[..|logs|] == Deliveries(logs);
  }

  lemma {:induction false} PlainConcat(plan: Plan, tb: Table, u: seq<Log>, v: seq<Log>)
    ensures Plain(plan, tb, u + v) == Plain(plan, Plain(plan, tb, u), v)
  {
    if v == [] {
      assert u + v == u;
    } else {
      var init, l := v[..|v| - 1], v[|v| - 1];
      assert u + v == u + init + [l] && v == init + [l];
      PlainConcat(plan, tb, u, init);
      PlainNext(plan, tb, u + init, l);
      PlainNext(plan, Plain(plan, tb, u), init, l);
    }
  }

  /** Through a session the rows are those of its logs handled one after the other; an owed log is
      settled by the first delivery. */
  lemma {:induction false} ActsHold(plan: Plan, todo: seq<Log>, c: nat, x: Table, plain: Table,
                                    acts: seq<Act>, owed: Option<Log>)
    requires Blind(plan) && OnlyAdvances(plan) && Legal(todo, c, acts)
    requires Holds(plan, x, plain, owed) && ComesFirst(todo, owed)
    ensures Holds(plan, Effect(plan, x, acts), Plain(plan, plain, Delivered(acts)),
                  if Delivered(acts) == [] then owed else None)
  {
    if acts != [] {
      var init := acts[..|acts| - 1];
      var mid, there := Effect(plan, x, init), Plain(plan, plain, Delivered(init));
      var still := if Delivered(init) == [] then owed else None;
      ActsHold(plan, todo, c, x, plain, init, owed);
      match acts[|acts| - 1] {
        case Deliver(l) =>
          DeliverSettles(plan, mid, there, l, still);
          PlainNext(plan, plain, Delivered(init), l);
        case Advance(b) =>
          AdvanceKeeps(plan, mid, there, b, still);
      }
    }
  }

  /** A stop inside a log, where handling it again mends, leaves that log owed. */
  lemma {:induction false} CutOwes(plan: Plan, x: Table, plain: Table, l: Log, n: nat, owed: Option<Log>)
    requires Blind(plan) && MendsAt(plan, Deliver(l), x, n)
    requires Holds(plan, x, plain, owed) && (owed.None? || owed == Some(l))
    ensures Holds(plan, ApplyAll(x, plan(x, Deliver(l))[..n]), plain, Some(l))
  {
    DeliverSettles(plan, x, plain, l, owed);
  }

  // ---------- sessions ----------

  /** Where a stop falls inside the writes of a log: the log, the table before it, the writes done. */
  datatype CutLog = CutLog(log: Log, before: Table, done: nat)

  /** The cut a stop makes, if it falls inside a log and not between two acts. */
  function CutPoint(plan: Plan, tb: Table, acts: seq<Act>, cut: nat): Option<CutLog> {
    if acts == [] || cut >= |Script(plan, tb, acts)| then None
    else
      var init, a := acts[..|acts| - 1], acts[|acts| - 1];
      if cut > |Script(plan, tb, init)| && a.Deliver?
      then Some(CutLog(a.log, Effect(plan, tb, init), cut - |Script(plan, tb, init)|))
      else CutPoint(plan, tb, init, cut)
  }

  lemma {:induction false} CutPointAt(plan: Plan, tb: Table, acts: seq<Act>, cut: nat, j: nat, n: nat)
    requires StopsIn(plan, tb, acts, cut, j, n)
    ensures CutPoint(plan, tb, acts, cut) ==
      if n > 0 && j < |acts| && acts[j].Deliver? then Some(CutLog(acts[j].log, Effect(plan, tb, acts[..j]), n))
      else None
    decreases |acts|
  {
    if j == |acts| {
      assert acts[..j] == acts;
    } else {
      var init := acts[..|acts| - 1];
      EffectNext(plan, tb, acts, j);
      ScriptGrows(plan, tb, acts, j + 1);
      assert init[..j] == acts[..j];
      if j < |init| {
        assert init[..j + 1] == acts[..j + 1];
        ScriptGrows(plan, tb, init, j + 1);
        CutPointAt(plan, tb, init, cut, j, n);
      } else {
        CutAtLast(plan, tb, init, cut);
      }
    }
  }

  lemma {:induction false} CutAtLast(plan: Plan, tb: Table, init: seq<Act>, cut: nat)
    requires cut >= |Script(plan, tb, init)|
    ensures CutPoint(plan, tb, init, cut).None?
  {
  }

  /** The stop falls between two acts, or inside a log above the cursor, where handling it again mends. */
  predicate Harmless(plan: Plan, tb: Table, s: Session) {
    match CutPoint(plan, tb, s.acts, s.cut)
    case None => true
    case Some(p) =>
      MendsAt(plan, Deliver(p.log), p.before, p.done) && CursorOf(AfterSession(plan, tb, s)) < p.log.block
  }

  predicate HarmlessLife(plan: Plan, tb: Table, life: seq<Session>) {
    life == [] ||
    (HarmlessLife(plan, tb, life[..|life| - 1]) &&
     Harmless(plan, AfterLife(plan, tb, life[..|life| - 1]), life[|life| - 1]))
  }

  /** What is owed after a session: the log it was cut in, or what was owed before if it completed none. */
  function StillOwed(plan: Plan, tb: Table, s: Session, owed: Option<Log>): Option<Log> {
    if CutPoint(plan, tb, s.acts, s.cut).Some? then Some(CutPoint(plan, tb, s.acts, s.cut).value.log)
    else if Completed(plan, tb, s.acts, s.cut) == [] then owed
    else None
  }

  function Owed(plan: Plan, tb: Table, life: seq<Session>): Option<Log> {
    if life == [] then None
    else StillOwed(plan, AfterLife(plan, tb, life[..|life| - 1]), life[|life| - 1],
                   Owed(plan, tb, life[..|life| - 1]))
  }

  /** At a stop before any delivery the stream of the restart is the same; at a stop before a log above the
      cursor it begins with that log. */
  lemma {:induction false} RestartBegins(chain: seq<Log>, startBlock: nat, c: nat, acts: seq<Act>)
    requires GoodChain(chain) && StartOk(startBlock, c) && Legal(Todo(chain, startBlock, c), c, acts)
    ensures var todo, d, cur := Todo(chain, startBlock, c), |Delivered(acts)|, CursorAfter(c, acts);
      d < |todo| && cur < todo[d].block ==>
        Todo(chain, startBlock, cur) != [] && Todo(chain, startBlock, cur)[0] == todo[d]
  {
    var e := RestartTakesUp(chain, startBlock, c, acts);
  }

  lemma {:induction false} NoDeliveryBelow(chain: seq<Log>, startBlock: nat, c: nat, acts: seq<Act>)
    requires GoodChain(chain) && StartOk(startBlock, c) && Legal(Todo(chain, startBlock, c), c, acts)
    requires Delivered(acts) == [] && Todo(chain, startBlock, c) != []
    ensures CursorAfter(c, acts) < Todo(chain, startBlock, c)[0].block
  {
    TodoAhead(chain, startBlock, c);
    CursorBelow(Todo(chain, startBlock, c), c, acts, 0);
  }

  /** The acts before the stop: complete, and legal with one more if the stop falls inside it. */
  lemma StopFacts(plan: Plan, chain: seq<Log>, startBlock: nat, x: Table, s: Session) returns (j: nat, n: nat)
    requires Regular(plan) && GoodChain(chain) && StartOk(startBlock, CursorOf(x))
    requires Follows(plan, chain, startBlock, x, s)
    ensures StopsIn(plan, x, s.acts, s.cut, j, n)
    ensures AfterSession(plan, x, s) == StoppedIn(plan, x, s.acts, j, n)
    ensures Completed(plan, x, s.acts, s.cut) == Delivered(s.acts[..j])
    ensures CursorOf(AfterSession(plan, x, s)) == CursorAfter(CursorOf(x), s.acts[..j])
    ensures Legal(Todo(chain, startBlock, CursorOf(x)), CursorOf(x), s.acts[..j])
    ensures j < |s.acts| ==> Allowed(Todo(chain, startBlock, CursorOf(x)), CursorOf(x), s.acts[..j], s.acts[j])
  {
    var todo, c := Todo(chain, startBlock, CursorOf(x)), CursorOf(x);
    var e;
    j, n, e := StopDichotomy(plan, chain, startBlock, x, s.acts, s.cut);
    StopCompleted(plan, x, s.acts, s.cut, j, n);
    LegalAt(todo, c, s.acts, j);
  }

  lemma {:induction false} LegalAt(todo: seq<Log>, c: nat, acts: seq<Act>, j: nat)
    requires Legal(todo, c, acts) && j <= |acts|
    ensures Legal(todo, c, acts[..j])
    ensures j < |acts| ==> Allowed(todo, c, acts[..j], acts[j])
  {
    LegalPrefix(todo, c, acts, j);
    if j < |acts| {
      LegalPrefix(todo, c, acts, j + 1);
      assert acts[..j + 1][..j] == acts[..j];
    }
  }

  /** At the stop the table is that before an act, or some writes of a delivery later. */
  lemma {:induction false} StoppedWhere(plan: Plan, x: Table, acts: seq<Act>, k: nat, j: nat, n: nat)
    requires OnlyAdvances(plan) && StopsIn(plan, x, acts, k, j, n)
    ensures n == 0 ==> StoppedIn(plan, x, acts, j, n) == Effect(plan, x, acts[..j])
    ensures n > 0 ==>
      && j < |acts| && acts[j].Deliver?
      && var mid := Effect(plan, x, acts[..j]);
         n <= |plan(mid, acts[j])| && StoppedIn(plan, x, acts, j, n) == ApplyAll(mid, plan(mid, acts[j])[..n])
  {
    var mid := Effect(plan, x, acts[..j]);
    if j < |acts| {
      assert n == 0 ==> plan(mid, acts[j])[..n] == [];
      assert acts[j].Advance? ==> |plan(mid, Advance(acts[j].block))| == 1;
    }
  }

  lemma {:induction false} SessionHolds(plan: Plan, chain: seq<Log>, startBlock: nat, x: Table, plain: Table,
                                        s: Session, owed: Option<Log>)
    requires Regular(plan) && GoodChain(chain) && StartOk(startBlock, CursorOf(x)) && Typed(x)
    requires Follows(plan, chain, startBlock, x, s) && Survives(s.acts) && Harmless(plan, x, s)
    requires Holds(plan, x, plain, owed) && ComesFirst(Todo(chain, startBlock, CursorOf(x)), owed)
    ensures var after, still := AfterSession(plan, x, s), StillOwed(plan, x, s, owed);
      && Typed(after) && ComesFirst(Todo(chain, startBlock, CursorOf(after)), still)
      && Holds(plan, after, Plain(plan, plain, Completed(plan, x, s.acts, s.cut)), still)
  {
    var todo, c := Todo(chain, startBlock, CursorOf(x)), CursorOf(x);
    var j, n := StopFacts(plan, chain, startBlock, x, s);
    var done := s.acts[..j];
    var mid, there := Effect(plan, x, done), Plain(plan, plain, Delivered(done));
    CutPointAt(plan, x, s.acts, s.cut, j, n);
    SessionSane(todo, c, s.acts);
    assert forall a :: a in done ==> a in s.acts;
    EffectTyped(plan, x, done);
    ActsHold(plan, todo, c, x, plain, done, owed);
    RestartBegins(chain, startBlock, c, done);
    if Delivered(done) == [] && todo != [] { NoDeliveryBelow(chain, startBlock, c, done); }
    StoppedWhere(plan, x, s.acts, s.cut, j, n);
    if n > 0 {
      ActTyped(plan, mid, s.acts[j], n);
      CutOwes(plan, mid, there, s.acts[j].log, n, if Delivered(done) == [] then owed else None);
    }
  }

  // ---------- lives ----------

  /** After any life with harmless stops: the rows are those of the completed logs handled one after the
      other, up to handling the owed log, which the next session takes up first. */
  lemma {:induction false} LifeHolds(plan: Plan, chain: seq<Log>, startBlock: nat, tb: Table,
                                     life: seq<Session>)
    requires Regular(plan) && GoodChain(chain) && StartOk(startBlock, CursorOf(tb)) && Typed(tb)
    requires Life(plan, chain, startBlock, tb, life) && Survived(life) && HarmlessLife(plan, tb, life)
    ensures var after, owed := AfterLife(plan, tb, life), Owed(plan, tb, life);
      && Typed(after) && ComesFirst(Todo(chain, startBlock, CursorOf(after)), owed)
      && Holds(plan, after, Plain(plan, tb, AllCompleted(plan, tb, life)), owed)
  {
    if life == [] {
      assert SameButCursor(tb, tb);
    } else {
      var init, s := life[..|life| - 1], life[|life| - 1];
      var now := AfterLife(plan, tb, init);
      assert s in life;
      assert forall k :: k in init ==> k in life;
      LifeHolds(plan, chain, startBlock, tb, init);
      LifeStartOk(plan, chain, startBlock, tb, init);
      SessionHolds(plan, chain, startBlock, now, Plain(plan, tb, AllCompleted(plan, tb, init)), s,
                   Owed(plan, tb, init));
      PlainConcat(plan, tb, AllCompleted(plan, tb, init), Completed(plan, now, s.acts, s.cut));
    }
  }

  // ---------- the indexer ----------

  /** The session's stop falls between two acts, or inside a log above the cursor that does not move the
      ledger, or moves it so that the part on disk does not tell. */
  predicate GentleStop(tb: Table, s: Session) {
    match CutPoint(Handling(), tb, s.acts, s.cut)
    case None => true
    case Some(p) => GentleCut(p) && CursorOf(AfterSession(Handling(), tb, s)) < p.log.block
  }

  /** Handling the log again mends the cut: decided by the kind of log, the amount, the number of writes
      done and the balances before. */
  predicate GentleCut(p: CutLog) {
    match LedgerOp(p.log)
    case None => true
    case Some(op) =>
      Mendable(op, p.done, BalanceOf(p.before, op.token, First(op)), BalanceOf(p.before, op.token, Last(op)))
  }

  predicate GentleLife(tb: Table, life: seq<Session>) {
    life == [] ||
    (GentleLife(tb, life[..|life| - 1]) &&
     GentleStop(AfterLife(Handling(), tb, life[..|life| - 1]), life[|life| - 1]))
  }

  /** For a readable log in a typed table, that is exactly when handling again mends. */
  lemma GentleExactly(p: CutLog)
    requires Typed(p.before) && Readable(p.log) && p.done <= |LogWrites(p.before, p.log)|
    ensures GentleCut(p) <==> MendsAt(Handling(), Deliver(p.log), p.before, p.done)
  {
    if LedgerOp(p.log).None? {
      OtherLogsSafe(p.before, p.log, p.done);
    } else {
      RepairsExactly(p.before, p.log, p.done);
    }
  }

  /** The cut of a session is a real one: a readable log, a typed table, not all writes done. */
  lemma {:induction false} CutIsReal(tb: Table, acts: seq<Act>, cut: nat)
    requires Typed(tb) && (forall a :: a in acts ==> Sane(a))
    ensures match CutPoint(Handling(), tb, acts, cut)
      case None => true
      case Some(p) => Typed(p.before) && Readable(p.log) && 0 < p.done < |LogWrites(p.before, p.log)|
  {
    if acts != [] {
      var init, a := acts[..|acts| - 1], acts[|acts| - 1];
      assert acts == init + [a];
      assert a in acts;
      assert forall k :: k in init ==> k in acts;
      CutIsReal(tb, init, cut);
      HandlingRegular();
      EffectTyped(Handling(), tb, init);
      ScriptSnoc(Handling(), tb, init, a);
    }
  }

  lemma GentleHarmless(tb: Table, s: Session)
    requires Typed(tb) && forall a :: a in s.acts ==> Sane(a)
    ensures GentleStop(tb, s) <==> Harmless(Handling(), tb, s)
  {
    CutIsReal(tb, s.acts, s.cut);
    var p := CutPoint(Handling(), tb, s.acts, s.cut);
    if p.Some? { GentleExactly(p.value); }
  }

  lemma {:induction false} SessionTyped(plan: Plan, tb: Table, s: Session)
    requires Fitting(plan) && Typed(tb) && s.cut <= |Script(plan, tb, s.acts)|
    requires forall a :: a in s.acts ==> Sane(a)
    ensures Typed(AfterSession(plan, tb, s))
  {
    var j, n := StopInside(plan, tb, s.acts, s.cut);
    assert forall a :: a in s.acts[..j] ==> a in s.acts;
    EffectTyped(plan, tb, s.acts[..j]);
    if j < |s.acts| {
      assert s.acts[j] in s.acts;
      ActTyped(plan, Effect(plan, tb, s.acts[..j]), s.acts[j], n);
    }
  }

  lemma {:induction false} LifeTyped(plan: Plan, chain: seq<Log>, startBlock: nat, tb: Table,
                                     life: seq<Session>)
    requires Fitting(plan) && Typed(tb) && Life(plan, chain, startBlock, tb, life) && Survived(life)
    ensures Typed(AfterLife(plan, tb, life))
  {
    if life != [] {
      var init, s := life[..|life| - 1], life[|life| - 1];
      var now := AfterLife(plan, tb, init);
      assert s in life;
      assert forall k :: k in init ==> k in life;
      LifeTyped(plan, chain, startBlock, tb, init);
      SessionSane(Todo(chain, startBlock, CursorOf(now)), CursorOf(now), s.acts);
      SessionTyped(plan, now, s);
    }
  }

  lemma {:induction false} GentleLives(chain: seq<Log>, startBlock: nat, tb: Table, life: seq<Session>)
    requires Typed(tb) && Life(Handling(), chain, startBlock, tb, life) && Survived(life)
    ensures GentleLife(tb, life) <==> HarmlessLife(Handling(), tb, life)
  {
    if life != [] {
      var init, s := life[..|life| - 1], life[|life| - 1];
      var now := AfterLife(Handling(), tb, init);
      assert s in life;
      assert forall k :: k in init ==> k in life;
      GentleLives(chain, startBlock, tb, init);
      HandlingRegular();
      LifeTyped(Handling(), chain, startBlock, tb, init);
      SessionSane(Todo(chain, startBlock, CursorOf(now)), CursorOf(now), s.acts);
      GentleHarmless(now, s);
    }
  }

  lemma {:induction false} PlainHandles(tb: Table, logs: seq<Log>)
    ensures SameButCursor(Plain(Handling(), tb, logs), HandleAll(tb, logs))
  {
    DeliveriesLegal(logs, 0, |logs|);
    assert logs[..|logs|] == logs;
    SessionHandles(tb, Deliveries(logs));
  }

  lemma {:induction false} CompletedReadable(plan: Plan, tb: Table, acts: seq<Act>, cut: nat)
    requires Survives(acts)
    ensures forall l :: l in Completed(plan, tb, acts, cut) ==> Readable(l)
  {
    if acts != [] {
      var init := acts[..|acts| - 1];
      assert forall a :: a in init ==> a in acts;
      CompletedReadable(plan, tb, init, cut);
      forall l | l in Delivered(acts) ensures Readable(l) { DeliveredIn(acts, l); }
    }
  }

  lemma {:induction false} AllReadableCompleted(plan: Plan, tb: Table, life: seq<Session>)
    requires Survived(life)
    ensures AllReadable(AllCompleted(plan, tb, life))
  {
    if life != [] {
      var init, s := life[..|life| - 1], life[|life| - 1];
      assert s in life;
      assert forall k :: k in init ==> k in life;
      AllReadableCompleted(plan, tb, init);
      CompletedReadable(plan, AfterLife(plan, tb, init), s.acts, s.cut);
    }
  }

  /** What the store holds after a life of gentle stops. With no log owed, its rows are those of handling
      the completed logs one after the other, and every token's account is the plain ledger run on
      them; with a log owed, the restart takes it up first, and handling it makes that so. */
  lemma {:induction false} LifeRows(chain: seq<Log>, startBlock: nat, tb: Table, life: seq<Session>)
    requires GoodChain(chain) && StartOk(startBlock, CursorOf(tb)) && Typed(tb)
    requires Life(Handling(), chain, startBlock, tb, life) && Survived(life) && GentleLife(tb, life)
    ensures var after, done := AfterLife(Handling(), tb, life), AllCompleted(Handling(), tb, life);
      match Owed(Handling(), tb, life)
      case None =>
        && SameButCursor(after, HandleAll(tb, done))
        && forall u: Token :: AccountOf(after, u) == Run(AccountOf(tb, u), OnToken(OpsOf(done), u))
      case Some(l) =>
        && Todo(chain, startBlock, CursorOf(after)) != [] && Todo(chain, startBlock, CursorOf(after))[0] == l
        && SameButCursor(ApplyAll(after, LogWrites(after, l)), HandleAll(tb, done + [l]))
  {
    var after, done := AfterLife(Handling(), tb, life), AllCompleted(Handling(), tb, life);
    HandlingRegular();
    GentleLives(chain, startBlock, tb, life);
    LifeHolds(Handling(), chain, startBlock, tb, life);
    match Owed(Handling(), tb, life) {
      case None =>
        PlainHandles(tb, done);
        SameThrough(after, Plain(Handling(), tb, done), HandleAll(tb, done));
        AllReadableCompleted(Handling(), tb, life);
        forall u: Token ensures AccountOf(after, u) == Run(AccountOf(tb, u), OnToken(OpsOf(done), u)) {
          SameAccount(after, HandleAll(tb, done), u);
          HandledRuns(tb, done, u);
        }
      case Some(l) =>
        PlainNext(Handling(), tb, done, l);
        PlainHandles(tb, done + [l]);
        SameThrough(ApplyAll(after, LogWrites(after, l)), Plain(Handling(), tb, done + [l]), HandleAll(tb, done + [l]));
    }
  }

  // ---------- the accounts after any stops ----------

  /** What a cut adds to an account: the part of the step that is on disk. */
  function Through(k: Account, u: Token, cut: Option<CutLog>): Account {
    if cut.Some? && LedgerOp(cut.value.log).Some? && LedgerOp(cut.value.log).value.token == u
    then Partly(k, LedgerOp(cut.value.log).value, cut.value.done)
    else k
  }

  /** The account of a token through a life: in each session the operations of the completed logs, and
      then the part of an operation that the stop cut short. */
  function LifeAccount(k: Account, u: Token, tb: Table, life: seq<Session>): Account {
    if life == [] then k
    else
      var init, s := life[..|life| - 1], life[|life| - 1];
      var now := AfterLife(Handling(), tb, init);
      Through(Run(LifeAccount(k, u, tb, init), OnToken(OpsOf(Completed(Handling(), now, s.acts, s.cut)), u)),
              u, CutPoint(Handling(), now, s.acts, s.cut))
  }

  lemma CutAccount(tb: Table, l: Log, n: nat, u: Token)
    requires Typed(tb) && Readable(l) && n <= |LogWrites(tb, l)|
    ensures AccountOf(Stopped(tb, l, n), u) == Through(AccountOf(tb, u), u, Some(CutLog(l, tb, n)))
  {
    if LedgerOp(l).Some? {
      LedgerPartly(tb, l, n, u);
    } else {
      var ws, part := LogWrites(tb, l), Stopped(tb, l, n);
      QuietLog(tb, l);
      assert forall i :: 0 <= i < n ==> ws[..n][i] == ws[i];
      AccountShown(tb, u);
      OtherRows(tb, ws[..n], u, AccountOf(tb, u));
      StoppedTyped(tb, l, n);
      AccountShown(part, u);
      ShownUnique(part, u, AccountOf(part, u), AccountOf(tb, u));
    }
  }

  lemma {:induction false} SessionAccount(chain: seq<Log>, startBlock: nat, x: Table, s: Session, u: Token)
    requires GoodChain(chain) && StartOk(startBlock, CursorOf(x)) && Typed(x)
    requires Follows(Handling(), chain, startBlock, x, s) && Survives(s.acts)
    ensures AccountOf(AfterSession(Handling(), x, s), u) ==
      Through(Run(AccountOf(x, u), OnToken(OpsOf(Completed(Handling(), x, s.acts, s.cut)), u)), u,
              CutPoint(Handling(), x, s.acts, s.cut))
  {
    HandlingRegular();
    var j, n := StopFacts(Handling(), chain, startBlock, x, s);
    var done := s.acts[..j];
    CutPointAt(Handling(), x, s.acts, s.cut, j, n);
    SessionSane(Todo(chain, startBlock, CursorOf(x)), CursorOf(x), s.acts);
    assert forall a :: a in done ==> a in s.acts;
    EffectTyped(Handling(), x, done);
    forall i | 0 <= i < |Delivered(done)| ensures Readable(Delivered(done)[i]) {
      DeliveredIn(done, Delivered(done)[i]);
    }
    SessionAccounts(x, done, u);
    StoppedWhere(Handling(), x, s.acts, s.cut, j, n);
    if n > 0 {
      assert s.acts[j] in s.acts;
      CutAccount(Effect(Handling(), x, done), s.acts[j].log, n, u);
    }
  }

  /** After any life, whatever the stops: each account is the ledger run in which every log that was cut
      contributes the part of its step that was on disk, before its full step if it is taken up again. */
  lemma {:induction false} LifeAccounts(chain: seq<Log>, startBlock: nat, tb: Table, life: seq<Session>,
                                        u: Token)
    requires GoodChain(chain) && StartOk(startBlock, CursorOf(tb)) && Typed(tb)
    requires Life(Handling(), chain, startBlock, tb, life) && Survived(life)
    ensures AccountOf(AfterLife(Handling(), tb, life), u) == LifeAccount(AccountOf(tb, u), u, tb, life)
  {
    if life != [] {
      var init, s := life[..|life| - 1], life[|life| - 1];
      assert s in life;
      assert forall k :: k in init ==> k in life;
      HandlingRegular();
      LifeAccounts(chain, startBlock, tb, init, u);
      LifeTyped(Handling(), chain, startBlock, tb, init);
      LifeStartOk(Handling(), chain, startBlock, tb, init);
      SessionAccount(chain, startBlock, AfterLife(Handling(), tb, init), s, u);
    }
  }

  /** A log that was cut is the first that the restart takes up if it lies above the cursor, and is not taken
      up at all otherwise. */
  lemma {:induction false} CutComesBack(plan: Plan, chain: seq<Log>, startBlock: nat, x: Table, s: Session)
    requires Regular(plan) && GoodChain(chain) && StartOk(startBlock, CursorOf(x))
    requires Follows(plan, chain, startBlock, x, s) && CutPoint(plan, x, s.acts, s.cut).Some?
    ensures var l, cur := CutPoint(plan, x, s.acts, s.cut).value.log, CursorOf(AfterSession(plan, x, s));
      var todo := Todo(chain, startBlock, cur);
      if cur < l.block then todo != [] && todo[0] == l else cur == l.block && l !in todo
  {
    var j, n := StopFacts(plan, chain, startBlock, x, s);
    var todo, c, done := Todo(chain, startBlock, CursorOf(x)), CursorOf(x), s.acts[..j];
    CutPointAt(plan, x, s.acts, s.cut, j, n);
    TodoAhead(chain, startBlock, c);
    PositionKnown(todo, c, done);
    RestartBegins(chain, startBlock, c, done);
    StartStaysOk(chain, startBlock, c, done);
    TodoAhead(chain, startBlock, CursorAfter(c, done));
  }

  // ---------- one log a block ----------

  lemma {:induction false} SessionTakes(plan: Plan, chain: seq<Log>, startBlock: nat, x: Table, s: Session)
    requires CursorLast(plan) && GoodChain(chain) && StartOk(startBlock, CursorOf(x))
    requires Follows(plan, chain, startBlock, x, s) && OneLogPerBlock(Todo(chain, startBlock, CursorOf(x)))
    ensures Todo(chain, startBlock, CursorOf(x)) ==
      Completed(plan, x, s.acts, s.cut) + Todo(chain, startBlock, CursorOf(AfterSession(plan, x, s)))
  {
    var todo, c := Todo(chain, startBlock, CursorOf(x)), CursorOf(x);
    var j := SessionStop(plan, chain, startBlock, x, s);
    DeliveredPrefix(todo, c, s.acts[..j]);
    NothingLost(chain, startBlock, c, s.acts[..j]);
    var d := |Delivered(s.acts[..j])|;
    assert todo == todo[..d] + todo[d..];
  }

  lemma OneLogEach(u: seq<Log>, v: seq<Log>)
    requires OneLogPerBlock(u + v)
    ensures OneLogPerBlock(v)
  {
    forall i | 0 < i < |v| ensures v[i - 1].block != v[i].block {
      assert (u + v)[|u| + i - 1] == v[i - 1] && (u + v)[|u| + i] == v[i];
    }
  }

  /** When no two logs share a block, the completed logs and the stream of the next start make up the whole
      stream, whatever the stops. */
  lemma {:induction false} LifeTakes(plan: Plan, chain: seq<Log>, startBlock: nat, tb: Table,
                                     life: seq<Session>)
    requires CursorLast(plan) && GoodChain(chain) && StartOk(startBlock, CursorOf(tb))
    requires Life(plan, chain, startBlock, tb, life) && OneLogPerBlock(Todo(chain, startBlock, CursorOf(tb)))
    ensures Todo(chain, startBlock, CursorOf(tb)) ==
      AllCompleted(plan, tb, life) + Todo(chain, startBlock, CursorOf(AfterLife(plan, tb, life)))
  {
    if life != [] {
      var init, s := life[..|life| - 1], life[|life| - 1];
      var now := AfterLife(plan, tb, init);
      LifeTakes(plan, chain, startBlock, tb, init);
      LifeStartOk(plan, chain, startBlock, tb, init);
      OneLogEach(AllCompleted(plan, tb, init), Todo(chain, startBlock, CursorOf(now)));
      SessionTakes(plan, chain, startBlock, now, s);
      Regroup(AllCompleted(plan, tb, init), Completed(plan, now, s.acts, s.cut),
              Todo(chain, startBlock, CursorOf(AfterSession(plan, now, s))));
    }
  }

  lemma {:induction false} CompletedIndexed(plan: Plan, chain: seq<Log>, startBlock: nat, tb: Table,
                                            life: seq<Session>)
    requires CursorLast(plan) && GoodChain(chain) && StartOk(startBlock, CursorOf(tb))
    requires Life(plan, chain, startBlock, tb, life) && OneLogPerBlock(Todo(chain, startBlock, CursorOf(tb)))
    ensures AllCompleted(plan, tb, life) ==
      if StartFrom(startBlock, CursorOf(tb)) == 0 then []
      else Indexed(chain, StartFrom(startBlock, CursorOf(tb)), CursorOf(AfterLife(plan, tb, life)))
  {
    LifeTakes(plan, chain, startBlock, tb, life);
    LifeStartOk(plan, chain, startBlock, tb, life);
    CursorNeverDecreases(plan, chain, startBlock, tb, life, 0);
    assert life[..0] == [];
    IndexedWhen(chain, startBlock, CursorOf(tb), CursorOf(AfterLife(plan, tb, life)), AllCompleted(plan, tb, life));
  }

  lemma IndexedWhen(chain: seq<Log>, startBlock: nat, c: nat, cursor: nat, u: seq<Log>)
    requires GoodChain(chain) && StartOk(startBlock, c) && StartOk(startBlock, cursor) && c <= cursor
    requires Todo(chain, startBlock, c) == u + Todo(chain, startBlock, cursor)
    ensures u == if StartFrom(startBlock, c) == 0 then [] else Indexed(chain, StartFrom(startBlock, c), cursor)
  {
    if StartFrom(startBlock, c) == 0 || cursor == 0 {
      assert |u| == 0;
    } else {
      var range := Topical(Pick(chain, StartFrom(startBlock, c), cursor));
      StreamSplit(chain, StartFrom(startBlock, c), cursor);
      assert Todo(chain, startBlock, cursor) == Stream(chain, cursor + 1);
      SameHead(u, range, Stream(chain, cursor + 1));
    }
  }

  lemma SameHead(u: seq<Log>, v: seq<Log>, w: seq<Log>)
    requires u + w == v + w
    ensures u == v
  {
    assert |u| == |v|;
    assert u == (u + w)[..|u|] && v == (v + w)[..|v|];
  }

  /** With gentle stops, no two logs of a block, and no log owed, the store holds what handling exactly the
      chain's logs up to the cursor makes of what it held at first: stops leave no trace. */
  lemma {:induction false} StopsLeaveNoTrace(chain: seq<Log>, startBlock: nat, tb: Table, life: seq<Session>)
    requires GoodChain(chain) && StartOk(startBlock, CursorOf(tb)) && Typed(tb)
    requires Life(Handling(), chain, startBlock, tb, life) && Survived(life) && GentleLife(tb, life)
    requires StartFrom(startBlock, CursorOf(tb)) > 0 && OneLogPerBlock(Todo(chain, startBlock, CursorOf(tb)))
    requires Owed(Handling(), tb, life).None?
    ensures var after := AfterLife(Handling(), tb, life);
      SameButCursor(after, HandleAll(tb, Indexed(chain, StartFrom(startBlock, CursorOf(tb)), CursorOf(after))))
  {
    HandlingCursorLast();
    LifeRows(chain, startBlock, tb, life);
    CompletedIndexed(Handling(), chain, startBlock, tb, life);
  }
}
