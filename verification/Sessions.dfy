/** Sessions of the indexer and where a stop can fall.

A session is a sequence of acts: handling a log, or moving the cursor past a polled range. An act
is planned from the table it finds and carried out as a list of writes, each of which survives a
stop on its own; what a session did is known from the writes alone. Apart from the plan of the
indexer itself, everything here holds for any plan whose acts end with the cursor.
*/
module Sessions {
  import opened Keys
  import opened Rows
  import opened Plans
  import opened Logs
  import opened Replay
  import opened Chains

  datatype Act = Deliver(log: Log) | Advance(block: nat)

  function Delivered(acts: seq<Act>): seq<Log> {
    if acts == [] then []
    else
      var r := Delivered(acts[..|acts| - 1]);
      match acts[|acts| - 1] case Deliver(l) => r + [l] case Advance(_) => r
  }

  lemma {:induction false} DeliveredSnoc(acts: seq<Act>, l: Log)
    ensures |Delivered(acts + [Deliver(l)])| == |Delivered(acts)| + 1
  {
    assert (acts + [Deliver(l)])[..|acts|] == acts;
  }

  function CursorAfter(c: nat, acts: seq<Act>): nat {
    if acts == [] then c
    else match acts[|acts| - 1] case Deliver(l) => l.block case Advance(b) => b
  }

  /** What an act writes, given the table it finds. */
  type Plan = (Table, Act) -> seq<Write>

  /** The plan of the indexer. */
  function Handling(): Plan {
    (tb: Table, a: Act) =>
      match a case Deliver(l) => LogWrites(tb, l) case Advance(b) => [CursorWrite(b)]
  }

  /** The table after some acts, and all the writes they issue. */
  function Effect(plan: Plan, tb: Table, acts: seq<Act>): Table {
    if acts == [] then tb
    else
      var mid := Effect(plan, tb, acts[..|acts| - 1]);
      ApplyAll(mid, plan(mid, acts[|acts| - 1]))
  }

  function Script(plan: Plan, tb: Table, acts: seq<Act>): seq<Write> {
    if acts == [] then []
    else
      var init := acts[..|acts| - 1];
      Script(plan, tb, init) + plan(Effect(plan, tb, init), acts[|acts| - 1])
  }

  lemma {:induction false} ScriptEffect(plan: Plan, tb: Table, acts: seq<Act>)
    ensures ApplyAll(tb, Script(plan, tb, acts)) == Effect(plan, tb, acts)
  {
    if acts != [] {
      var m := |acts| - 1;
      ScriptEffect(plan, tb, acts[..m]);
      ApplyConcat(tb, Script(plan, tb, acts[..m]), plan(Effect(plan, tb, acts[..m]), acts[m]));
    }
  }

  /** What a session may do: deliver the next log of its stream, or move a cursor there is up to
      before the next log. */
  predicate Allowed(stream: seq<Log>, c: nat, done: seq<Act>, a: Act) {
    var d := |Delivered(done)|;
    match a
    case Deliver(l) => d < |stream| && l == stream[d]
    case Advance(b) =>
      0 < CursorAfter(c, done) <= b < TWO64 - 1 && (d < |stream| ==> b < stream[d].block)
  }

  predicate Legal(stream: seq<Log>, c: nat, acts: seq<Act>) {
    acts == [] ||
    (Legal(stream, c, acts[..|acts| - 1]) && Allowed(stream, c, acts[..|acts| - 1], acts[|acts| - 1]))
  }

  /** One act more. */
  lemma {:induction false} ActsSnoc(plan: Plan, tb: Table, stream: seq<Log>, c: nat, acts: seq<Act>, a: Act)
    requires Legal(stream, c, acts) && Allowed(stream, c, acts, a)
    ensures Legal(stream, c, acts + [a])
    ensures Effect(plan, tb, acts + [a]) == ApplyAll(Effect(plan, tb, acts), plan(Effect(plan, tb, acts), a))
    ensures Script(plan, tb, acts + [a]) == Script(plan, tb, acts) + plan(Effect(plan, tb, acts), a)
    ensures Delivered(acts + [a]) ==
      match a case Deliver(l) => Delivered(acts) + [l] case Advance(_) => Delivered(acts)
  {
    assert (acts + [a])[..|acts|] == acts;
  }

  /** Some acts are a legal session from a table, and lead to this table by these writes. */
  ghost predicate InSession(plan: Plan, todo: seq<Log>, first: Table, acts: seq<Act>,
                            tb: Table, history: seq<Write>) {
    && Legal(todo, CursorOf(first), acts)
    && tb == Effect(plan, first, acts)
    && history == Script(plan, first, acts)
  }

  lemma {:induction false} SessionSnoc(plan: Plan, todo: seq<Log>, first: Table, acts: seq<Act>, tb: Table,
                                       history: seq<Write>, a: Act)
    requires InSession(plan, todo, first, acts, tb, history)
    requires Allowed(todo, CursorOf(first), acts, a)
    ensures InSession(plan, todo, first, acts + [a], ApplyAll(tb, plan(tb, a)), history + plan(tb, a))
  {
    ActsSnoc(plan, first, todo, CursorOf(first), acts, a);
  }

  lemma {:induction false} LegalPrefix(stream: seq<Log>, c: nat, acts: seq<Act>, j: nat)
    requires Legal(stream, c, acts) && j <= |acts|
    ensures Legal(stream, c, acts[..j])
    decreases |acts|
  {
    if j == |acts| {
      assert acts[..j] == acts;
    } else {
      LegalPrefix(stream, c, acts[..|acts| - 1], j);
      assert acts[..|acts| - 1][..j] == acts[..j];
    }
  }

  /** Delivery is in order and without repetition: a prefix of the stream. */
  lemma {:induction false} DeliveredPrefix(stream: seq<Log>, c: nat, acts: seq<Act>)
    requires Legal(stream, c, acts)
    ensures |Delivered(acts)| <= |stream| && Delivered(acts) == stream[..|Delivered(acts)|]
  {
    if acts != [] { DeliveredPrefix(stream, c, acts[..|acts| - 1]); }
  }

  /** The stream of a session starts above the cursor the session started from. */
  ghost predicate Ahead(stream: seq<Log>, c: nat) {
    c < TWO64 - 1 && ChainOrder(stream) && forall l :: l in stream ==> c < l.block < TWO64 - 1
  }

  /** The cursor stands between what was delivered and what comes next, and never moves back. */
  lemma {:induction false} CursorBetween(stream: seq<Log>, c: nat, acts: seq<Act>)
    requires Legal(stream, c, acts) && Ahead(stream, c)
    ensures var d, cur := |Delivered(acts)|, CursorAfter(c, acts);
      && d <= |stream| && c <= cur < TWO64 - 1
      && (forall i :: 0 <= i < d ==> stream[i].block <= cur)
      && (d < |stream| ==> cur <= stream[d].block)
  {
    DeliveredPrefix(stream, c, acts);
    if acts == [] {
      if stream != [] { assert stream[0] in stream; }
    } else {
      var m := |acts| - 1;
      DeliveredPrefix(stream, c, acts[..m]);
      CursorBetween(stream, c, acts[..m]);
      var d := |Delivered(acts[..m])|;
      if acts[m].Deliver? {
        assert stream[d] in stream;
        forall i | 0 <= i < d ensures stream[i].block <= stream[d].block { assert Before(stream[i], stream[d]); }
        if d + 1 < |stream| { assert Before(stream[d], stream[d + 1]); }
      }
    }
  }

  // ---------- the cursor row ----------

  lemma RecordNoCursor(tb: Table, l: Log)
    ensures Spares(RecordPart(tb, l), CursorKey)
  {
    RecordKeys(tb, l);
  }

  lemma GenericNoCursor(l: Log)
    ensures Spares(GenericPart(l), CursorKey)
  {
  }

  lemma HandlerNoCursor(tb: Table, l: Log)
    ensures Spares(HandlerWrites(tb, l), CursorKey)
  {
    if LedgerOp(l).Some? {
      OpKeys(tb, LedgerOp(l).value, l.Stamp());
    } else {
      RecordNoCursor(tb, l);
      GenericNoCursor(l);
    }
  }

  /** These writes end with the cursor and do not touch it before. */
  ghost predicate EndsWithCursor(ws: seq<Write>, b: nat) {
    ws != [] && ws[|ws| - 1] == CursorWrite(b) && Spares(ws[..|ws| - 1], CursorKey)
  }

  predicate HasTopics(a: Act) { a.Deliver? ==> a.log.sig != NoTopics }

  /** Every act ends with its cursor write. */
  ghost predicate CursorLast(plan: Plan) {
    forall tb: Table, a: Act :: HasTopics(a) ==> EndsWithCursor(plan(tb, a), CursorAfter(0, [a]))
  }

  lemma HandlingCursorLast()
    ensures CursorLast(Handling())
  {
    forall tb: Table, a: Act | HasTopics(a)
      ensures EndsWithCursor(Handling()(tb, a), CursorAfter(0, [a]))
    {
      if a.Deliver? { LogCursorLast(tb, a.log); }
    }
  }

  lemma LogCursorLast(tb: Table, l: Log)
    requires l.sig != NoTopics
    ensures EndsWithCursor(LogWrites(tb, l), l.block)
  {
    var ws := HandlerWrites(tb, l);
    HandlerNoCursor(tb, l);
    assert (ws + [CursorWrite(l.block)])[..|ws|] == ws;
  }

  lemma {:induction false} EndCursor(tb: Table, ws: seq<Write>, b: nat, n: nat)
    requires EndsWithCursor(ws, b) && n <= |ws|
    ensures n < |ws| ==> CursorOf(ApplyAll(tb, ws[..n])) == CursorOf(tb)
    ensures CursorOf(ApplyAll(tb, ws)) == b
  {
    if n < |ws| {
      forall i | 0 <= i < n ensures ws[..n][i].key != CursorKey { assert ws[..n][i] == ws[..|ws| - 1][i]; }
      ApplyElsewhere(tb, ws[..n], CursorKey);
    }
  }

  /** The cursor row changes with the last write of an act and not before. */
  lemma {:induction false} ActCursor(plan: Plan, tb: Table, a: Act, n: nat)
    requires CursorLast(plan) && HasTopics(a) && n <= |plan(tb, a)|
    ensures n < |plan(tb, a)| ==> CursorOf(ApplyAll(tb, plan(tb, a)[..n])) == CursorOf(tb)
    ensures CursorOf(ApplyAll(tb, plan(tb, a))) == CursorAfter(CursorOf(tb), [a])
  {
    EndCursor(tb, plan(tb, a), CursorAfter(0, [a]), n);
  }

  lemma {:induction false} CursorRow(plan: Plan, tb: Table, stream: seq<Log>, acts: seq<Act>)
    requires CursorLast(plan) && Legal(stream, CursorOf(tb), acts) && forall l :: l in stream ==> l.sig != NoTopics
    ensures CursorOf(Effect(plan, tb, acts)) == CursorAfter(CursorOf(tb), acts)
  {
    if acts != [] {
      var m := |acts| - 1;
      CursorRow(plan, tb, stream, acts[..m]);
      if acts[m].Deliver? { assert acts[m].log in stream; }
      ActCursor(plan, Effect(plan, tb, acts[..m]), acts[m], 0);
    }
  }

  // ---------- stops ----------

  /** What `k` writes of some acts, the last of them inside the act after the first `j`, leave. */
  function StoppedIn(plan: Plan, tb: Table, acts: seq<Act>, j: nat, n: nat): Table
    requires j <= |acts|
  {
    var mid := Effect(plan, tb, acts[..j]);
    if j == |acts| then mid
    else if n <= |plan(mid, acts[j])| then ApplyAll(mid, plan(mid, acts[j])[..n])
    else mid
  }

  /** The `k`-th write belongs to the act at `j`, or there are no writes after it. */
  predicate StopsIn(plan: Plan, tb: Table, acts: seq<Act>, k: nat, j: nat, n: nat) {
    && j <= |acts|
    && k == |Script(plan, tb, acts[..j])| + n
    && (if j < |acts| then n < |plan(Effect(plan, tb, acts[..j]), acts[j])| else n == 0)
  }

  lemma {:induction false} StopAtEnd(plan: Plan, tb: Table, acts: seq<Act>)
    ensures StopsIn(plan, tb, acts, |Script(plan, tb, acts)|, |acts|, 0)
    ensures ApplyAll(tb, Script(plan, tb, acts)[..|Script(plan, tb, acts)|]) == StoppedIn(plan, tb, acts, |acts|, 0)
  {
    assert acts[..|acts|] == acts;
    ScriptEffect(plan, tb, acts);
    assert Script(plan, tb, acts)[..|Script(plan, tb, acts)|] == Script(plan, tb, acts);
  }

  lemma {:induction false} CutOf(tb: Table, prior: seq<Write>, ws: seq<Write>, n: nat)
    requires n < |ws|
    ensures |prior| + n < |prior + ws|
    ensures ApplyAll(tb, (prior + ws)[..|prior| + n]) == ApplyAll(ApplyAll(tb, prior), ws[..n])
  {
    assert (prior + ws)[..|prior| + n] == prior + ws[..n];
    ApplyConcat(tb, prior, ws[..n]);
  }

  lemma {:induction false} ScriptSnoc(plan: Plan, tb: Table, init: seq<Act>, a: Act)
    ensures Script(plan, tb, init + [a]) == Script(plan, tb, init) + plan(Effect(plan, tb, init), a)
  {
    assert (init + [a])[..|init|] == init;
  }

  lemma {:induction false} LastStop(plan: Plan, tb: Table, init: seq<Act>, a: Act, n: nat)
    requires n < |plan(Effect(plan, tb, init), a)|
    ensures StopsIn(plan, tb, init + [a], |Script(plan, tb, init)| + n, |init|, n)
    ensures StoppedIn(plan, tb, init + [a], |init|, n) == ApplyAll(Effect(plan, tb, init), plan(Effect(plan, tb, init), a)[..n])
  {
    assert (init + [a])[..|init|] == init;
  }

  lemma {:induction false} LastCut(plan: Plan, tb: Table, init: seq<Act>, a: Act, n: nat)
    requires n < |plan(Effect(plan, tb, init), a)|
    ensures |Script(plan, tb, init)| + n < |Script(plan, tb, init + [a])|
    ensures ApplyAll(tb, Script(plan, tb, init + [a])[..|Script(plan, tb, init)| + n])
         == ApplyAll(Effect(plan, tb, init), plan(Effect(plan, tb, init), a)[..n])
  {
    ScriptSnoc(plan, tb, init, a);
    ScriptEffect(plan, tb, init);
    CutOf(tb, Script(plan, tb, init), plan(Effect(plan, tb, init), a), n);
  }

  lemma {:induction false} StopInLast(plan: Plan, tb: Table, init: seq<Act>, a: Act, n: nat)
    requires n < |plan(Effect(plan, tb, init), a)|
    ensures var acts, k := init + [a], |Script(plan, tb, init)| + n;
      && StopsIn(plan, tb, acts, k, |init|, n) && k < |Script(plan, tb, acts)|
      && ApplyAll(tb, Script(plan, tb, acts)[..k]) == StoppedIn(plan, tb, acts, |init|, n)
  {
    LastStop(plan, tb, init, a, n);
    LastCut(plan, tb, init, a, n);
  }

  lemma {:induction false} StopEarlier(plan: Plan, tb: Table, init: seq<Act>, a: Act, k: nat, j: nat, n: nat)
    requires j < |init| && StopsIn(plan, tb, init, k, j, n) && k < |Script(plan, tb, init)|
    requires ApplyAll(tb, Script(plan, tb, init)[..k]) == StoppedIn(plan, tb, init, j, n)
    ensures var acts := init + [a];
      && StopsIn(plan, tb, acts, k, j, n) && k < |Script(plan, tb, acts)|
      && ApplyAll(tb, Script(plan, tb, acts)[..k]) == StoppedIn(plan, tb, acts, j, n)
  {
    var acts := init + [a];
    assert acts[..|init|] == init && acts[..j] == init[..j];
    assert Script(plan, tb, acts)[..k] == Script(plan, tb, init)[..k];
  }

  /** A stop after `k` writes is a stop inside some act, all acts before it being complete. */
  lemma {:induction false} StopInside(plan: Plan, tb: Table, acts: seq<Act>, k: nat) returns (j: nat, n: nat)
    requires k <= |Script(plan, tb, acts)|
    ensures StopsIn(plan, tb, acts, k, j, n) && (j < |acts| <==> k < |Script(plan, tb, acts)|)
    ensures ApplyAll(tb, Script(plan, tb, acts)[..k]) == StoppedIn(plan, tb, acts, j, n)
  {
    if k == |Script(plan, tb, acts)| {
      j, n := |acts|, 0;
      StopAtEnd(plan, tb, acts);
    } else {
      var init, a := acts[..|acts| - 1], acts[|acts| - 1];
      assert acts == init + [a];
      ScriptSnoc(plan, tb, init, a);
      if k < |Script(plan, tb, init)| {
        j, n := StopInside(plan, tb, init, k);
        StopEarlier(plan, tb, init, a, k, j, n);
      } else {
        j, n := |init|, k - |Script(plan, tb, init)|;
        StopInLast(plan, tb, init, a, n);
      }
    }
  }

  lemma {:induction false} EffectNext(plan: Plan, tb: Table, acts: seq<Act>, j: nat)
    requires j < |acts|
    ensures var ws := plan(Effect(plan, tb, acts[..j]), acts[j]);
      && Effect(plan, tb, acts[..j + 1]) == ApplyAll(Effect(plan, tb, acts[..j]), ws)
      && Script(plan, tb, acts[..j + 1]) == Script(plan, tb, acts[..j]) + ws
  {
    assert acts[..j + 1][..j] == acts[..j];
  }
}
