/** Delivery of the chain's logs over runs, stops and restarts.

Only the rows survive a stop, the cursor among them. The laws below say which logs a restart takes
up, which it does not, and that nothing else ever goes missing or is done twice.
*/
module Delivery {
  import opened Rows
  import opened Plans
  import opened Logs
  import opened EventIndex
  import opened IndexRuns
  import opened Chains
  import opened Sessions

  /** The block a start of the indexer begins with. */
  function StartFrom(startBlock: nat, cursor: nat): nat {
    if cursor > 0 && cursor + 1 > startBlock then cursor + 1 else startBlock
  }

  /** The configured start does not skip ahead of a cursor that is there. */
  predicate StartOk(startBlock: nat, cursor: nat) {
    cursor < TWO64 - 1 && startBlock < TWO64 && (cursor > 0 ==> startBlock <= cursor + 1)
  }

  /** The logs a session starting with this cursor is to deliver; with neither a cursor nor a
      configured start it delivers nothing. */
  function Todo(chain: seq<Log>, startBlock: nat, cursor: nat): seq<Log> {
    if StartFrom(startBlock, cursor) == 0 then [] else Stream(chain, StartFrom(startBlock, cursor))
  }

  lemma TodoAhead(chain: seq<Log>, startBlock: nat, c: nat)
    requires GoodChain(chain) && StartOk(startBlock, c)
    ensures Ahead(Todo(chain, startBlock, c), c)
    ensures forall l :: l in Todo(chain, startBlock, c) ==> l.sig != NoTopics && l in chain
  {
    StreamFacts(chain, StartFrom(startBlock, c));
    forall l | l in Todo(chain, startBlock, c)
      ensures l.sig != NoTopics && l in chain && c < l.block < TWO64 - 1
    {
      assert l in chain ==> Numbered(l);
    }
  }

  /** Without a cursor nothing happens before the first delivery. */
  lemma {:induction false} IdleWithoutCursor(stream: seq<Log>, acts: seq<Act>)
    requires Legal(stream, 0, acts) && Delivered(acts) == []
    ensures acts == []
  {
    if acts != [] { IdleWithoutCursor(stream, acts[..|acts| - 1]); }
  }

  /** A cursor that a session reaches is one a restart can begin from. */
  lemma {:induction false} StartStaysOk(chain: seq<Log>, startBlock: nat, c: nat, acts: seq<Act>)
    requires GoodChain(chain) && StartOk(startBlock, c)
    requires Legal(Todo(chain, startBlock, c), c, acts)
    ensures StartOk(startBlock, CursorAfter(c, acts))
  {
    var todo := Todo(chain, startBlock, c);
    TodoAhead(chain, startBlock, c);
    CursorBetween(todo, c, acts);
    if c == 0 {
      if Delivered(acts) == [] { IdleWithoutCursor(todo, acts); }
      else {
        assert todo[0] in todo;
        RangeMember(chain, startBlock, TWO64, todo[0]);
      }
    }
  }

  /** From delivered position `d` with the cursor at `cur`, what a restart would take up. */
  ghost predicate TakenUp(chain: seq<Log>, startBlock: nat, todo: seq<Log>, d: nat, cur: nat, e: nat) {
    && d <= e <= |todo|
    && Todo(chain, startBlock, cur) == todo[e..]
    && (forall i :: d <= i < e ==> todo[i].block == cur)
    && (e == d <==> d == |todo| || todo[d].block > cur)
  }

  lemma SplitTodo(chain: seq<Log>, from: nat, d: nat, cur: nat) returns (e: nat)
    requires GoodChain(chain) && from <= cur + 1 && cur < TWO64 && d <= |Stream(chain, from)|
    requires d > 0 ==> Stream(chain, from)[d - 1].block <= cur
    requires d < |Stream(chain, from)| ==> Stream(chain, from)[d].block >= cur
    ensures d <= e <= |Stream(chain, from)| && Stream(chain, cur + 1) == Stream(chain, from)[e..]
    ensures forall i :: d <= i < e ==> Stream(chain, from)[i].block == cur
    ensures e == d <==> d == |Stream(chain, from)| || Stream(chain, from)[d].block > cur
  {
    var todo := Stream(chain, from);
    e := |Topical(Pick(chain, from, cur))|;
    StreamSplit(chain, from, cur);
    StreamSorted(chain, from);
    if d > 0 { SplitByBlock(chain, from, cur, d - 1); }
    if d < |todo| { SplitByBlock(chain, from, cur, d); }
    forall i | d <= i < e ensures todo[i].block == cur {
      SplitByBlock(chain, from, cur, i);
      NotEarlier(todo, d, i);
    }
  }

  lemma NotEarlier(logs: seq<Log>, i: nat, j: nat)
    requires ChainOrder(logs) && i <= j < |logs|
    ensures logs[i].block <= logs[j].block
  {
    if i < j { assert Before(logs[i], logs[j]); }
  }

  /** A session without a cursor has delivered nothing, and a restart begins like the session. */
  lemma {:induction false} NoCursorYet(todo: seq<Log>, c: nat, acts: seq<Act>)
    requires Legal(todo, c, acts) && Ahead(todo, c) && CursorAfter(c, acts) == 0
    ensures c == 0 && |Delivered(acts)| == 0 && (todo != [] ==> todo[0].block > 0)
  {
    CursorBetween(todo, c, acts);
    assert forall i :: 0 <= i < |todo| ==> todo[i] in todo && todo[i].block > 0;
  }

  /** The cursor law of a session: at any point, what a restart would take up is the rest of the
      session's stream, less the not yet delivered logs of the block the cursor stands at. */
  lemma RestartTakesUp(chain: seq<Log>, startBlock: nat, c: nat, acts: seq<Act>) returns (e: nat)
    requires GoodChain(chain) && StartOk(startBlock, c)
    requires Legal(Todo(chain, startBlock, c), c, acts)
    ensures TakenUp(chain, startBlock, Todo(chain, startBlock, c), |Delivered(acts)|, CursorAfter(c, acts), e)
  {
    var todo, d, cur := Todo(chain, startBlock, c), |Delivered(acts)|, CursorAfter(c, acts);
    TodoAhead(chain, startBlock, c);
    if cur == 0 {
      NoCursorYet(todo, c, acts);
      e := 0;
      assert todo[0..] == todo;
    } else {
      PositionKnown(todo, c, acts);
      StartStaysOk(chain, startBlock, c, acts);
      SomeStart(todo, startBlock, c, acts);
      e := SplitAgain(chain, startBlock, c, d, cur);
    }
  }

  lemma SplitAgain(chain: seq<Log>, startBlock: nat, c: nat, d: nat, cur: nat) returns (e: nat)
    requires GoodChain(chain) && StartOk(startBlock, cur) && StartFrom(startBlock, c) > 0
    requires 0 < cur && c <= cur && d <= |Todo(chain, startBlock, c)|
    requires d > 0 ==> Todo(chain, startBlock, c)[d - 1].block <= cur
    requires d < |Todo(chain, startBlock, c)| ==> Todo(chain, startBlock, c)[d].block >= cur
    ensures TakenUp(chain, startBlock, Todo(chain, startBlock, c), d, cur, e)
  {
    e := SplitTodo(chain, StartFrom(startBlock, c), d, cur);
  }

  lemma {:induction false} PositionKnown(todo: seq<Log>, c: nat, acts: seq<Act>)
    requires Legal(todo, c, acts) && Ahead(todo, c)
    ensures var d, cur := |Delivered(acts)|, CursorAfter(c, acts);
      && d <= |todo| && c <= cur < TWO64
      && (d > 0 ==> todo[d - 1].block <= cur)
      && (d < |todo| ==> todo[d].block >= cur)
  {
    CursorBetween(todo, c, acts);
  }

  /** A session that has a cursor had somewhere to start. */
  lemma {:induction false} SomeStart(todo: seq<Log>, startBlock: nat, c: nat, acts: seq<Act>)
    requires Legal(todo, c, acts) && CursorAfter(c, acts) > 0
    requires StartFrom(startBlock, c) == 0 ==> todo == []
    ensures StartFrom(startBlock, c) > 0
  {
    if StartFrom(startBlock, c) == 0 {
      DeliveredPrefix(todo, c, acts);
      IdleWithoutCursor(todo, acts);
    }
  }

  /** The state at a chunk or poll boundary: without a cursor nothing has been handled, and otherwise
      exactly the logs of the chain from the start of the run up to the cursor, in order. */
  ghost predicate Aligned(chain: seq<Log>, from: nat, todo: seq<Log>, done: seq<Log>, cursor: nat) {
    done == Indexed(chain, from, cursor) && (cursor > 0 ==> ReadyAt(todo, |done|, cursor + 1))
  }

  /** The chain's logs from a first block up to the cursor, less those without topics; none without a
      cursor. */
  function Indexed(chain: seq<Log>, from: nat, cursor: nat): seq<Log> {
    if cursor == 0 then [] else Topical(Pick(chain, from, cursor))
  }

  /** Having handled everything below a block, with the cursor below it, a session is aligned. */
  lemma {:induction false} ReadyAligned(chain: seq<Log>, startBlock: nat, c: nat, acts: seq<Act>, block: nat)
    requires GoodChain(chain) && StartOk(startBlock, c)
    requires Legal(Todo(chain, startBlock, c), c, acts) && CursorAfter(c, acts) < block
    requires ReadyAt(Todo(chain, startBlock, c), |Delivered(acts)|, block)
    ensures Aligned(chain, StartFrom(startBlock, c), Todo(chain, startBlock, c),
                    Delivered(acts), CursorAfter(c, acts))
  {
    var todo, cursor := Todo(chain, startBlock, c), CursorAfter(c, acts);
    TodoAhead(chain, startBlock, c);
    if cursor == 0 {
      NoCursorYet(todo, c, acts);
    } else {
      CursorBetween(todo, c, acts);
      DeliveredPrefix(todo, c, acts);
      StartStaysOk(chain, startBlock, c, acts);
      SomeStart(todo, startBlock, c, acts);
      UpToBlock(chain, StartFrom(startBlock, c), |Delivered(acts)|, cursor);
    }
  }

  /** No log of these blocks is to be handled. */
  ghost predicate Silent(chain: seq<Log>, lo: int, hi: int) {
    forall l :: l in chain && lo <= l.block <= hi ==> l.sig == NoTopics
  }

  /** A session that has handled everything below a block is without a cursor exactly if it began without
      one and there was nothing to handle. */
  lemma {:induction false} CursorStarts(chain: seq<Log>, startBlock: nat, c: nat, acts: seq<Act>, block: nat)
    requires GoodChain(chain) && StartOk(startBlock, c)
    requires Legal(Todo(chain, startBlock, c), c, acts)
    requires 0 < StartFrom(startBlock, c) <= block < TWO64
    requires ReadyAt(Todo(chain, startBlock, c), |Delivered(acts)|, block)
    ensures CursorAfter(c, acts) == 0 <==> c == 0 && Silent(chain, StartFrom(startBlock, c), block - 1)
  {
    TodoAhead(chain, startBlock, c);
    NoneYet(chain, StartFrom(startBlock, c), |Delivered(acts)|, block);
    CursorIffDelivered(Todo(chain, startBlock, c), c, acts);
  }

  lemma {:induction false} CursorIffDelivered(todo: seq<Log>, c: nat, acts: seq<Act>)
    requires Legal(todo, c, acts) && Ahead(todo, c)
    ensures CursorAfter(c, acts) == 0 <==> c == 0 && |Delivered(acts)| == 0
  {
    if CursorAfter(c, acts) == 0 {
      NoCursorYet(todo, c, acts);
    } else if c == 0 && |Delivered(acts)| == 0 {
      IdleWithoutCursor(todo, acts);
    }
  }

  lemma NoneYet(chain: seq<Log>, from: nat, d: nat, block: nat)
    requires GoodChain(chain) && 0 < from <= block < TWO64 && ReadyAt(Stream(chain, from), d, block)
    ensures d == 0 <==> Silent(chain, from, block - 1)
  {
    UpToBlock(chain, from, d, block - 1);
    SilentRange(chain, from, block - 1);
    assert |Stream(chain, from)[..d]| == d;
  }

  lemma {:induction false} SilentRange(chain: seq<Log>, lo: nat, hi: nat)
    ensures Silent(chain, lo, hi) <==> Topical(Pick(chain, lo, hi)) == []
  {
    var p := Topical(Pick(chain, lo, hi));
    if p != [] {
      assert p[0] in p;
      RangeMember(chain, lo, hi, p[0]);
    }
    forall l | p == [] && l in chain && lo <= l.block <= hi ensures l.sig == NoTopics {
      RangeMember(chain, lo, hi, l);
    }
  }

  /** Logs of the chain, up to a block, that are to be handled next once `d` have been handled: each
      is found in the stream at the place that counts the ones before it. */
  ghost predicate Due(chain: seq<Log>, todo: seq<Log>, d: nat, logs: seq<Log>, to: nat) {
    forall i {:trigger DueAt(chain, todo, d, logs, to, i)} :: 0 <= i < |logs| ==> DueAt(chain, todo, d, logs, to, i)
  }

  ghost predicate DueAt(chain: seq<Log>, todo: seq<Log>, d: nat, logs: seq<Log>, to: nat, i: nat)
    requires i < |logs|
  {
    && logs[i] in chain && logs[i].block <= to
    && (logs[i].sig != NoTopics ==> IsNext(todo, d + TopicalUpTo(logs, i), logs[i]))
  }

  predicate IsNext(todo: seq<Log>, d: nat, l: Log) { d < |todo| && todo[d] == l }

  /** The next logs to handle are those of a range that starts where the run is ready. */
  lemma RangeDue(chain: seq<Log>, startBlock: nat, c: nat, todo: seq<Log>, d: nat,
                 logs: seq<Log>, from: nat, to: nat) returns (next: nat)
    requires GoodChain(chain) && todo == Todo(chain, startBlock, c) && logs == Pick(chain, from, to)
    requires 0 < StartFrom(startBlock, c) <= from <= to < TWO64 && ReadyAt(todo, d, from)
    ensures next == d + |Topical(logs)|
    ensures Due(chain, todo, d, logs, to) && ReadyAt(todo, next, to + 1)
  {
    next := d + |Topical(logs)|;
    RangeNext(chain, StartFrom(startBlock, c), d, from, to, todo, Topical(logs));
    forall i | 0 <= i < |logs| ensures DueAt(chain, todo, d, logs, to, i) {
      PickMember(chain, from, to, logs[i]);
      if logs[i].sig != NoTopics { TopicalAt(logs, i); }
    }
  }

  lemma {:induction false} AdvanceAllowed(todo: seq<Log>, c: nat, acts: seq<Act>, b: nat)
    requires 0 < CursorAfter(c, acts) <= b < TWO64 - 1 && ReadyAt(todo, |Delivered(acts)|, b + 1)
    ensures Allowed(todo, c, acts, Advance(b))
  {
  }

  lemma AdvanceDelivers(acts: seq<Act>, b: nat)
    requires acts != [] && acts[|acts| - 1] == Advance(b)
    ensures |Delivered(acts)| == |Delivered(acts[..|acts| - 1])|
  {
  }

  /** A stop after any number of writes of a session, and the restart after it. Up to the act the stop
      falls into, everything is complete. If the next log lies above the cursor it is taken up again
      and nothing is lost; otherwise nothing is taken up again, and what is left out lies in the one
      block the cursor stands at. */
  lemma StopDichotomy(plan: Plan, chain: seq<Log>, startBlock: nat, tb: Table, acts: seq<Act>, k: nat)
    returns (j: nat, n: nat, e: nat)
    requires CursorLast(plan) && GoodChain(chain) && StartOk(startBlock, CursorOf(tb))
    requires Legal(Todo(chain, startBlock, CursorOf(tb)), CursorOf(tb), acts)
    requires k <= |Script(plan, tb, acts)|
    ensures StopsIn(plan, tb, acts, k, j, n)
    ensures var stopped := ApplyAll(tb, Script(plan, tb, acts)[..k]);
      && stopped == StoppedIn(plan, tb, acts, j, n)
      && CursorOf(stopped) == CursorAfter(CursorOf(tb), acts[..j])
      && var todo, d := Todo(chain, startBlock, CursorOf(tb)), |Delivered(acts[..j])|;
         && (j < |acts| && acts[j].Deliver? ==> d < |todo| && acts[j].log == todo[d])
         && TakenUp(chain, startBlock, todo, d, CursorOf(stopped), e)
  {
    var c := CursorOf(tb);
    var todo := Todo(chain, startBlock, c);
    TodoAhead(chain, startBlock, c);
    j, n := StopInside(plan, tb, acts, k);
    LegalPrefix(todo, c, acts, j);
    CursorRow(plan, tb, todo, acts[..j]);
    if j < |acts| {
      LegalPrefix(todo, c, acts, j + 1);
      assert acts[..j + 1][..j] == acts[..j];
      if acts[j].Deliver? { assert acts[j].log in todo; }
      ActCursor(plan, Effect(plan, tb, acts[..j]), acts[j], n);
    } else {
      assert acts[..j] == acts;
    }
    e := RestartTakesUp(chain, startBlock, c, acts[..j]);
  }

  // ---------- when no stop loses anything ----------

  /** A restart after these acts would leave out a log that was not delivered. */
  predicate Loses(chain: seq<Log>, startBlock: nat, c: nat, acts: seq<Act>) {
    var todo, d := Todo(chain, startBlock, c), |Delivered(acts)|;
    d <= |todo| && Todo(chain, startBlock, CursorAfter(c, acts)) != todo[d..]
  }

  ghost predicate OneLogPerBlock(logs: seq<Log>) {
    forall i :: 0 < i < |logs| ==> logs[i - 1].block != logs[i].block
  }

  function Deliveries(logs: seq<Log>): (acts: seq<Act>)
    ensures |acts| == |logs| && forall i :: 0 <= i < |logs| ==> acts[i] == Deliver(logs[i])
  {
    seq(|logs|, i requires 0 <= i < |logs| => Deliver(logs[i]))
  }

  lemma {:induction false} DeliveriesLegal(stream: seq<Log>, c: nat, m: nat)
    requires m <= |stream|
    ensures Legal(stream, c, Deliveries(stream[..m])) && Delivered(Deliveries(stream[..m])) == stream[..m]
  {
    if m > 0 {
      DeliveriesLegal(stream, c, m - 1);
      assert Deliveries(stream[..m])[..m - 1] == Deliveries(stream[..m - 1]);
    }
  }

  /** No stop can lose a log exactly when no two logs to be delivered share a block. */
  lemma {:induction false} NoLossExactly(chain: seq<Log>, startBlock: nat, c: nat)
    requires GoodChain(chain) && StartOk(startBlock, c)
    ensures OneLogPerBlock(Todo(chain, startBlock, c)) <==>
      forall acts :: Legal(Todo(chain, startBlock, c), c, acts) ==> !Loses(chain, startBlock, c, acts)
  {
    var todo := Todo(chain, startBlock, c);
    if OneLogPerBlock(todo) {
      forall acts | Legal(todo, c, acts) ensures !Loses(chain, startBlock, c, acts) {
        NothingLost(chain, startBlock, c, acts);
      }
    } else {
      var i :| 0 < i < |todo| && todo[i - 1].block == todo[i].block;
      SharedBlockLoses(chain, startBlock, c, i);
      DeliveriesLegal(todo, c, i);
    }
  }

  /** A stop between two logs of one block leaves out the second. */
  lemma SharedBlockLoses(chain: seq<Log>, startBlock: nat, c: nat, i: nat)
    requires GoodChain(chain) && StartOk(startBlock, c)
    requires var todo := Todo(chain, startBlock, c); 0 < i < |todo| && todo[i - 1].block == todo[i].block
    ensures Loses(chain, startBlock, c, Deliveries(Todo(chain, startBlock, c)[..i]))
  {
    var todo := Todo(chain, startBlock, c);
    var acts := Deliveries(todo[..i]);
    DeliveriesLegal(todo, c, i);
    var e := RestartTakesUp(chain, startBlock, c, acts);
    assert CursorAfter(c, acts) == todo[i].block;
    assert |todo[e..]| != |todo[i..]|;
  }

  lemma {:induction false} NothingLost(chain: seq<Log>, startBlock: nat, c: nat, acts: seq<Act>)
    requires GoodChain(chain) && StartOk(startBlock, c)
    requires OneLogPerBlock(Todo(chain, startBlock, c))
    requires Legal(Todo(chain, startBlock, c), c, acts)
    ensures !Loses(chain, startBlock, c, acts)
  {
    var todo, d := Todo(chain, startBlock, c), |Delivered(acts)|;
    TodoAhead(chain, startBlock, c);
    CursorBetween(todo, c, acts);
    var e := RestartTakesUp(chain, startBlock, c, acts);
    CursorStandsAt(todo, c, acts);
    assert 0 < d < |todo| ==> todo[d - 1].block != todo[d].block;
    assert e == d;
  }

  /** Where the cursor stands at the next log's block, it was the last delivery that put it there. */
  lemma {:induction false} CursorStandsAt(stream: seq<Log>, c: nat, acts: seq<Act>)
    requires Legal(stream, c, acts) && Ahead(stream, c)
    ensures var d := |Delivered(acts)|;
      d < |stream| && stream[d].block == CursorAfter(c, acts) ==> d > 0 && stream[d - 1].block == stream[d].block
  {
    CursorBetween(stream, c, acts);
    var d := |Delivered(acts)|;
    if acts == [] {
      if stream != [] { assert stream[0] in stream; }
    } else if acts[|acts| - 1].Deliver? {
      DeliveredPrefix(stream, c, acts);
    }
  }

  // ---------- any number of stops ----------

  /** A session and the number of its writes that reached the disk before it was stopped. */
  datatype Session = Session(acts: seq<Act>, cut: nat)

  /** The writes that reached the disk. */
  function Taken(plan: Plan, tb: Table, s: Session): seq<Write> {
    var ws := Script(plan, tb, s.acts);
    if s.cut <= |ws| then ws[..s.cut] else ws
  }

  function AfterSession(plan: Plan, tb: Table, s: Session): Table { ApplyAll(tb, Taken(plan, tb, s)) }

  function AfterLife(plan: Plan, tb: Table, life: seq<Session>): Table {
    if life == [] then tb else AfterSession(plan, AfterLife(plan, tb, life[..|life| - 1]), life[|life| - 1])
  }

  /** A session that can follow a table: legal for its cursor, and stopped somewhere. */
  predicate Follows(plan: Plan, chain: seq<Log>, startBlock: nat, tb: Table, s: Session) {
    && Legal(Todo(chain, startBlock, CursorOf(tb)), CursorOf(tb), s.acts)
    && s.cut <= |Script(plan, tb, s.acts)|
  }

  /** A life of the store: sessions one after the other, each stopped somewhere. */
  predicate Life(plan: Plan, chain: seq<Log>, startBlock: nat, tb: Table, life: seq<Session>) {
    life == [] ||
    (Life(plan, chain, startBlock, tb, life[..|life| - 1]) &&
     Follows(plan, chain, startBlock, AfterLife(plan, tb, life[..|life| - 1]), life[|life| - 1]))
  }

  /** The logs whose handling, cursor included, is complete on disk after `cut` writes. */
  function Completed(plan: Plan, tb: Table, acts: seq<Act>, cut: nat): seq<Log> {
    if acts == [] then []
    else if cut >= |Script(plan, tb, acts)| then Delivered(acts)
    else Completed(plan, tb, acts[..|acts| - 1], cut)
  }

  /** The same over a life. */
  function AllCompleted(plan: Plan, tb: Table, life: seq<Session>): seq<Log> {
    if life == [] then []
    else
      var init, s := life[..|life| - 1], life[|life| - 1];
      AllCompleted(plan, tb, init) + Completed(plan, AfterLife(plan, tb, init), s.acts, s.cut)
  }

  lemma {:induction false} ScriptGrows(plan: Plan, tb: Table, acts: seq<Act>, j: nat)
    requires j <= |acts|
    ensures |Script(plan, tb, acts[..j])| <= |Script(plan, tb, acts)|
    decreases |acts|
  {
    if j == |acts| {
      assert acts[..j] == acts;
    } else {
      ScriptGrows(plan, tb, acts[..|acts| - 1], j);
      assert acts[..|acts| - 1][..j] == acts[..j];
    }
  }

  lemma {:induction false} CompletedActs(plan: Plan, tb: Table, acts: seq<Act>, cut: nat, j: nat)
    requires j <= |acts| && cut >= |Script(plan, tb, acts[..j])|
    requires j < |acts| ==> cut < |Script(plan, tb, acts[..j + 1])|
    ensures Completed(plan, tb, acts, cut) == Delivered(acts[..j])
    decreases |acts|
  {
    if j == |acts| {
      assert acts[..j] == acts;
    } else {
      ScriptGrows(plan, tb, acts, j + 1);
      var init := acts[..|acts| - 1];
      assert init[..j] == acts[..j];
      if j < |init| { assert init[..j + 1] == acts[..j + 1]; }
      CompletedActs(plan, tb, init, cut, j);
    }
  }

  /** A session's completed logs are the part of its stream up to its cursor, short of logs in the
      very block of the cursor. */
  ghost predicate Between(todo: seq<Log>, done: seq<Log>, cur: nat) {
    && |done| <= |todo| && done == todo[..|done|]
    && (forall i :: 0 <= i < |done| ==> todo[i].block <= cur)
    && (forall i :: |done| <= i < |todo| ==> todo[i].block >= cur)
  }

  /** A stopped session has completed some of its acts, and its cursor is where they put it. */
  lemma SessionStop(plan: Plan, chain: seq<Log>, startBlock: nat, tb: Table, s: Session) returns (j: nat)
    requires CursorLast(plan) && GoodChain(chain) && StartOk(startBlock, CursorOf(tb))
    requires Follows(plan, chain, startBlock, tb, s)
    ensures j <= |s.acts| && Completed(plan, tb, s.acts, s.cut) == Delivered(s.acts[..j])
    ensures CursorOf(AfterSession(plan, tb, s)) == CursorAfter(CursorOf(tb), s.acts[..j])
    ensures Legal(Todo(chain, startBlock, CursorOf(tb)), CursorOf(tb), s.acts[..j])
  {
    var n, e;
    j, n, e := StopDichotomy(plan, chain, startBlock, tb, s.acts, s.cut);
    StopCompleted(plan, tb, s.acts, s.cut, j, n);
    LegalPrefix(Todo(chain, startBlock, CursorOf(tb)), CursorOf(tb), s.acts, j);
  }

  lemma {:induction false} StopCompleted(plan: Plan, tb: Table, acts: seq<Act>, cut: nat, j: nat, n: nat)
    requires StopsIn(plan, tb, acts, cut, j, n)
    ensures Completed(plan, tb, acts, cut) == Delivered(acts[..j])
  {
    if j < |acts| { EffectNext(plan, tb, acts, j); }
    CompletedActs(plan, tb, acts, cut, j);
  }

  lemma {:induction false} SessionResult(plan: Plan, chain: seq<Log>, startBlock: nat, tb: Table, s: Session)
    requires CursorLast(plan) && GoodChain(chain) && StartOk(startBlock, CursorOf(tb))
    requires Follows(plan, chain, startBlock, tb, s)
    ensures StartOk(startBlock, CursorOf(AfterSession(plan, tb, s)))
    ensures CursorOf(tb) <= CursorOf(AfterSession(plan, tb, s))
    ensures Between(Todo(chain, startBlock, CursorOf(tb)), Completed(plan, tb, s.acts, s.cut),
                    CursorOf(AfterSession(plan, tb, s)))
  {
    var j := SessionStop(plan, chain, startBlock, tb, s);
    TodoAhead(chain, startBlock, CursorOf(tb));
    StartStaysOk(chain, startBlock, CursorOf(tb), s.acts[..j]);
    BetweenAt(Todo(chain, startBlock, CursorOf(tb)), CursorOf(tb), s.acts[..j]);
  }

  lemma {:induction false} BetweenAt(todo: seq<Log>, c: nat, acts: seq<Act>)
    requires Legal(todo, c, acts) && Ahead(todo, c)
    ensures Between(todo, Delivered(acts), CursorAfter(c, acts)) && c <= CursorAfter(c, acts)
  {
    DeliveredPrefix(todo, c, acts);
    CursorBetween(todo, c, acts);
    var d := |Delivered(acts)|;
    forall i | d <= i < |todo| ensures todo[i].block >= CursorAfter(c, acts) {
      if d < i { assert Before(todo[d], todo[i]); }
    }
  }

  lemma {:induction false} LifeStartOk(plan: Plan, chain: seq<Log>, startBlock: nat, tb: Table,
                                       life: seq<Session>)
    requires CursorLast(plan) && GoodChain(chain) && StartOk(startBlock, CursorOf(tb)) && Life(plan, chain, startBlock, tb, life)
    ensures StartOk(startBlock, CursorOf(AfterLife(plan, tb, life)))
  {
    if life != [] {
      var init := life[..|life| - 1];
      LifeStartOk(plan, chain, startBlock, tb, init);
      SessionResult(plan, chain, startBlock, AfterLife(plan, tb, init), life[|life| - 1]);
    }
  }

  /** Over any number of sessions and stops the stored cursor never decreases. */
  lemma {:induction false} CursorNeverDecreases(plan: Plan, chain: seq<Log>, startBlock: nat, tb: Table,
                                                life: seq<Session>, m: nat)
    requires CursorLast(plan) && GoodChain(chain) && StartOk(startBlock, CursorOf(tb)) && Life(plan, chain, startBlock, tb, life)
    requires m <= |life|
    ensures CursorOf(AfterLife(plan, tb, life[..m])) <= CursorOf(AfterLife(plan, tb, life))
    decreases |life|
  {
    if m == |life| {
      assert life[..m] == life;
    } else {
      var init := life[..|life| - 1];
      CursorNeverDecreases(plan, chain, startBlock, tb, init, m);
      assert init[..m] == life[..m];
      LifeStartOk(plan, chain, startBlock, tb, init);
      SessionResult(plan, chain, startBlock, AfterLife(plan, tb, init), life[|life| - 1]);
    }
  }

  lemma {:induction false} CompletedBelow(plan: Plan, chain: seq<Log>, startBlock: nat, tb: Table,
                                          life: seq<Session>)
    requires CursorLast(plan) && GoodChain(chain) && StartOk(startBlock, CursorOf(tb)) && Life(plan, chain, startBlock, tb, life)
    ensures forall l :: l in AllCompleted(plan, tb, life) ==> l.block <= CursorOf(AfterLife(plan, tb, life))
  {
    if life != [] {
      var init, s := life[..|life| - 1], life[|life| - 1];
      var now := AfterLife(plan, tb, init);
      CompletedBelow(plan, chain, startBlock, tb, init);
      LifeStartOk(plan, chain, startBlock, tb, init);
      SessionResult(plan, chain, startBlock, now, s);
      var done := Completed(plan, now, s.acts, s.cut);
      forall l | l in done ensures l.block <= CursorOf(AfterSession(plan, now, s)) {
        var i :| 0 <= i < |done| && done[i] == l;
      }
    }
  }

  /** Whatever the stops, the logs completed over a life are in chain order: none is completed twice. */
  lemma {:induction false} CompletedInOrder(plan: Plan, chain: seq<Log>, startBlock: nat, tb: Table,
                                            life: seq<Session>)
    requires CursorLast(plan) && GoodChain(chain) && StartOk(startBlock, CursorOf(tb)) && Life(plan, chain, startBlock, tb, life)
    ensures ChainOrder(AllCompleted(plan, tb, life))
  {
    if life != [] {
      var init, s := life[..|life| - 1], life[|life| - 1];
      var now := AfterLife(plan, tb, init);
      CompletedInOrder(plan, chain, startBlock, tb, init);
      CompletedBelow(plan, chain, startBlock, tb, init);
      LifeStartOk(plan, chain, startBlock, tb, init);
      SessionResult(plan, chain, startBlock, now, s);
      var todo := Todo(chain, startBlock, CursorOf(now));
      TodoAhead(chain, startBlock, CursorOf(now));
      JoinInOrder(AllCompleted(plan, tb, init), todo[..|Completed(plan, now, s.acts, s.cut)|], CursorOf(now));
    }
  }

  lemma JoinInOrder(u: seq<Log>, v: seq<Log>, b: nat)
    requires ChainOrder(u) && ChainOrder(v)
    requires (forall l :: l in u ==> l.block <= b) && (forall l :: l in v ==> l.block > b)
    ensures ChainOrder(u + v)
  {
    forall i, j | 0 <= i < j < |u + v| ensures Before((u + v)[i], (u + v)[j]) {
      if j < |u| { assert Before(u[i], u[j]); }
      else if i < |u| { assert u[i] in u && v[j - |u|] in v; }
      else { assert Before(v[i - |u|], v[j - |u|]); }
    }
  }

  /** Some session of the life was stopped with the cursor at this block. */
  ghost predicate StoppedAt(plan: Plan, tb: Table, life: seq<Session>, b: nat) {
    exists i :: 0 < i <= |life| && CursorOf(AfterLife(plan, tb, life[..i])) == b
  }

  /** A log the last session was to deliver: completed by it, or in the block of its cursor. */
  lemma {:induction false} LastSession(plan: Plan, chain: seq<Log>, startBlock: nat, now: Table, s: Session,
                                       l: Log)
    requires CursorLast(plan) && GoodChain(chain) && StartOk(startBlock, CursorOf(now))
    requires Follows(plan, chain, startBlock, now, s)
    requires l in Todo(chain, startBlock, CursorOf(now)) && l.block <= CursorOf(AfterSession(plan, now, s))
    ensures l in Completed(plan, now, s.acts, s.cut) || l.block == CursorOf(AfterSession(plan, now, s))
  {
    SessionResult(plan, chain, startBlock, now, s);
    var todo, done := Todo(chain, startBlock, CursorOf(now)), Completed(plan, now, s.acts, s.cut);
    var i :| 0 <= i < |todo| && todo[i] == l;
    if i < |done| { assert done[i] == l; }
  }

  lemma StillTodo(chain: seq<Log>, startBlock: nat, c: nat, cur: nat, l: Log)
    requires GoodChain(chain) && StartOk(startBlock, c) && StartOk(startBlock, cur)
    requires l in Todo(chain, startBlock, c) && cur < l.block && c <= cur
    ensures l in Todo(chain, startBlock, cur)
  {
    StreamFacts(chain, StartFrom(startBlock, c));
    StreamFacts(chain, StartFrom(startBlock, cur));
  }

  lemma StoppedEarlier(plan: Plan, tb: Table, life: seq<Session>, b: nat)
    requires life != [] && StoppedAt(plan, tb, life[..|life| - 1], b)
    ensures StoppedAt(plan, tb, life, b)
  {
    var init := life[..|life| - 1];
    var i :| 0 < i <= |init| && CursorOf(AfterLife(plan, tb, init[..i])) == b;
    assert init[..i] == life[..i];
  }

  lemma {:induction false} StoppedLast(plan: Plan, tb: Table, life: seq<Session>)
    requires life != []
    ensures StoppedAt(plan, tb, life, CursorOf(AfterLife(plan, tb, life)))
  {
    assert life[..|life|] == life;
  }

  /** What a life completed before its last session stays completed. */
  lemma AllCompletedLast(plan: Plan, tb: Table, life: seq<Session>, l: Log)
    requires life != []
    ensures var init, s := life[..|life| - 1], life[|life| - 1];
      l in AllCompleted(plan, tb, life) <==>
      l in AllCompleted(plan, tb, init) || l in Completed(plan, AfterLife(plan, tb, init), s.acts, s.cut)
  {
  }

  /** A log above the cursor a session started with, and up to the one it left. */
  lemma {:induction false} ThisSession(plan: Plan, chain: seq<Log>, startBlock: nat, c: nat, now: Table,
                                       s: Session, l: Log)
    requires CursorLast(plan) && GoodChain(chain) && StartOk(startBlock, c) && c <= CursorOf(now)
    requires StartOk(startBlock, CursorOf(now)) && Follows(plan, chain, startBlock, now, s)
    requires l in Todo(chain, startBlock, c) && CursorOf(now) < l.block <= CursorOf(AfterSession(plan, now, s))
    ensures l in Completed(plan, now, s.acts, s.cut) || l.block == CursorOf(AfterSession(plan, now, s))
  {
    StillTodo(chain, startBlock, c, CursorOf(now), l);
    LastSession(plan, chain, startBlock, now, s, l);
  }

  /** Nothing else is ever lost: a log to be handled, up to the final cursor, was completed in some
      session unless a session was stopped with the cursor at that log's block. */
  lemma {:induction false} NothingElseLost(plan: Plan, chain: seq<Log>, startBlock: nat, tb: Table,
                                           life: seq<Session>, l: Log)
    requires CursorLast(plan) && GoodChain(chain) && StartOk(startBlock, CursorOf(tb))
    requires Life(plan, chain, startBlock, tb, life)
    requires l in Todo(chain, startBlock, CursorOf(tb)) && l.block <= CursorOf(AfterLife(plan, tb, life))
    ensures l in AllCompleted(plan, tb, life) || StoppedAt(plan, tb, life, l.block)
  {
    if life == [] {
      TodoAhead(chain, startBlock, CursorOf(tb));
    } else {
      var init, s := life[..|life| - 1], life[|life| - 1];
      var now := AfterLife(plan, tb, init);
      LifeStartOk(plan, chain, startBlock, tb, init);
      AllCompletedLast(plan, tb, life, l);
      if l.block <= CursorOf(now) {
        NothingElseLost(plan, chain, startBlock, tb, init, l);
        if StoppedAt(plan, tb, init, l.block) { StoppedEarlier(plan, tb, life, l.block); }
      } else {
        CursorNeverDecreases(plan, chain, startBlock, tb, init, 0);
        ThisSession(plan, chain, startBlock, CursorOf(tb), now, s, l);
        StoppedLast(plan, tb, life);
      }
    }
  }

  // ---------- logs that cannot be handled ----------

  /** No log of the session fails in its handler. Handlers fail before their first write, and a failure
      ends the process: a session that meets such a log stops there, with no write of it. */
  ghost predicate Survives(acts: seq<Act>) {
    forall a :: a in acts && a.Deliver? ==> Readable(a.log)
  }

  ghost predicate Survived(life: seq<Session>) {
    forall s :: s in life ==> Survives(s.acts)
  }

  lemma {:induction false} DeliveredIn(acts: seq<Act>, l: Log)
    ensures l in Delivered(acts) ==> Deliver(l) in acts
  {
    if acts != [] {
      DeliveredIn(acts[..|acts| - 1], l);
      assert acts == acts[..|acts| - 1] + [acts[|acts| - 1]];
    }
  }

  lemma PrefixIn(acts: seq<Act>, j: nat, a: Act)
    requires j <= |acts|
    ensures a in acts[..j] ==> a in acts
  {
  }

  /** A session that survives does not get past a log that cannot be handled. */
  lemma {:induction false} NotPast(todo: seq<Log>, c: nat, acts: seq<Act>, j: nat, d: nat)
    requires j <= |acts| && Legal(todo, c, acts[..j]) && Survives(acts)
    requires d < |todo| && !Readable(todo[d])
    ensures |Delivered(acts[..j])| <= d
  {
    var done := Delivered(acts[..j]);
    DeliveredPrefix(todo, c, acts[..j]);
    var a := Deliver(todo[d]);
    assert d < |done| ==> done[d] == todo[d] && done[d] in done;
    DeliveredIn(acts[..j], todo[d]);
    PrefixIn(acts, j, a);
  }

  /** Before a log is handled the cursor is below its block, if all logs before it are. */
  lemma {:induction false} CursorBelow(todo: seq<Log>, c: nat, acts: seq<Act>, d: nat)
    requires Legal(todo, c, acts) && Ahead(todo, c) && |Delivered(acts)| <= d < |todo|
    requires forall i :: 0 <= i < d ==> todo[i].block < todo[d].block
    ensures CursorAfter(c, acts) < todo[d].block
  {
    if acts == [] {
      assert todo[d] in todo;
    } else {
      var init := acts[..|acts| - 1];
      var e := |Delivered(init)|;
      DeliveredPrefix(todo, c, init);
      if acts[|acts| - 1].Deliver? {
        assert acts[|acts| - 1].log == todo[e] && e < d;
      } else {
        NotEarlier(todo, e, d);
      }
    }
  }

  /** No log to be handled comes before this one in its block. */
  ghost predicate FirstOfBlock(chain: seq<Log>, l: Log) {
    forall k :: k in chain && k.sig != NoTopics && k.block == l.block ==> !Before(k, l)
  }

  lemma FirstInTodo(chain: seq<Log>, startBlock: nat, c: nat, l: Log) returns (d: nat)
    requires GoodChain(chain) && StartOk(startBlock, c) && l in Todo(chain, startBlock, c) && FirstOfBlock(chain, l)
    ensures var todo := Todo(chain, startBlock, c);
      d < |todo| && todo[d] == l && forall i :: 0 <= i < d ==> todo[i].block < l.block
  {
    var todo := Todo(chain, startBlock, c);
    TodoAhead(chain, startBlock, c);
    d :| 0 <= d < |todo| && todo[d] == l;
    forall i | 0 <= i < d ensures todo[i].block < l.block {
      assert todo[i] in todo && Before(todo[i], todo[d]);
    }
  }

  lemma FirstFromTodo(chain: seq<Log>, startBlock: nat, c: nat, d: nat)
    requires GoodChain(chain) && StartOk(startBlock, c)
    requires var todo := Todo(chain, startBlock, c);
      d < |todo| && (d == 0 || todo[d - 1].block < todo[d].block)
    ensures FirstOfBlock(chain, Todo(chain, startBlock, c)[d])
  {
    var todo := Todo(chain, startBlock, c);
    var l := todo[d];
    StreamFacts(chain, StartFrom(startBlock, c));
    assert l in todo;
    forall k | k in chain && k.sig != NoTopics && k.block == l.block ensures !Before(k, l) {
      assert k in todo;
      var i :| 0 <= i < |todo| && todo[i] == k;
      if i < d { NotEarlier(todo, i, d - 1); } else if d < i { assert Before(l, todo[i]); }
    }
  }

  /** A session cannot bring the cursor to the block of such a log. */
  lemma SessionStuck(plan: Plan, chain: seq<Log>, startBlock: nat, now: Table, s: Session, l: Log)
    requires CursorLast(plan) && GoodChain(chain) && StartOk(startBlock, CursorOf(now))
    requires Follows(plan, chain, startBlock, now, s) && Survives(s.acts)
    requires l in Todo(chain, startBlock, CursorOf(now)) && FirstOfBlock(chain, l) && !Readable(l)
    ensures CursorOf(AfterSession(plan, now, s)) < l.block
  {
    var c := CursorOf(now);
    var todo := Todo(chain, startBlock, c);
    var d := FirstInTodo(chain, startBlock, c, l);
    var j := SessionStop(plan, chain, startBlock, now, s);
    TodoAhead(chain, startBlock, c);
    NotPast(todo, c, s.acts, j, d);
    CursorBelow(todo, c, s.acts[..j], d);
  }

  lemma {:induction false} LifeStuck(plan: Plan, chain: seq<Log>, startBlock: nat, tb: Table,
                                     life: seq<Session>, l: Log)
    requires CursorLast(plan) && GoodChain(chain) && StartOk(startBlock, CursorOf(tb))
    requires Life(plan, chain, startBlock, tb, life) && Survived(life)
    requires l in Todo(chain, startBlock, CursorOf(tb)) && FirstOfBlock(chain, l) && !Readable(l)
    ensures CursorOf(AfterLife(plan, tb, life)) < l.block
  {
    if life == [] {
      TodoAhead(chain, startBlock, CursorOf(tb));
    } else {
      var init, s := life[..|life| - 1], life[|life| - 1];
      var now := AfterLife(plan, tb, init);
      assert s in life;
      assert forall k :: k in init ==> k in life;
      LifeStuck(plan, chain, startBlock, tb, init, l);
      LifeStartOk(plan, chain, startBlock, tb, init);
      CursorNeverDecreases(plan, chain, startBlock, tb, init, 0);
      assert init[..0] == [];
      StillTodo(chain, startBlock, CursorOf(tb), CursorOf(now), l);
      SessionStuck(plan, chain, startBlock, now, s, l);
    }
  }

  /** One session that handles the first `d` logs of its stream and is then stopped. */
  lemma OneSession(plan: Plan, chain: seq<Log>, startBlock: nat, tb: Table, d: nat) returns (life: seq<Session>)
    requires CursorLast(plan) && GoodChain(chain) && StartOk(startBlock, CursorOf(tb))
    requires 0 < d <= |Todo(chain, startBlock, CursorOf(tb))|
    requires forall i :: 0 <= i < d ==> Readable(Todo(chain, startBlock, CursorOf(tb))[i])
    ensures Life(plan, chain, startBlock, tb, life) && Survived(life)
    ensures CursorOf(AfterLife(plan, tb, life)) == Todo(chain, startBlock, CursorOf(tb))[d - 1].block
  {
    var todo, c := Todo(chain, startBlock, CursorOf(tb)), CursorOf(tb);
    var acts := Deliveries(todo[..d]);
    var s := Session(acts, |Script(plan, tb, acts)|);
    TodoAhead(chain, startBlock, c);
    DeliveriesLegal(todo, c, d);
    ScriptEffect(plan, tb, acts);
    CursorRow(plan, tb, todo, acts);
    assert Taken(plan, tb, s) == Script(plan, tb, acts);
    assert [s][..0] == [];
    life := [s];
  }

  /** A log that fails in its handler is never passed, whatever the stops and restarts, exactly when it is
      the first of its block; otherwise its block is already that of the cursor, and the next restart
      leaves it out. */
  lemma {:induction false} StuckExactly(plan: Plan, chain: seq<Log>, startBlock: nat, tb: Table, d: nat)
    requires CursorLast(plan) && GoodChain(chain) && StartOk(startBlock, CursorOf(tb))
    requires var todo := Todo(chain, startBlock, CursorOf(tb));
      d < |todo| && !Readable(todo[d]) && forall i :: 0 <= i < d ==> Readable(todo[i])
    ensures var todo := Todo(chain, startBlock, CursorOf(tb));
      (forall life :: Life(plan, chain, startBlock, tb, life) && Survived(life) ==>
        CursorOf(AfterLife(plan, tb, life)) < todo[d].block) <==>
      d == 0 || todo[d - 1].block < todo[d].block
  {
    var todo := Todo(chain, startBlock, CursorOf(tb));
    TodoAhead(chain, startBlock, CursorOf(tb));
    if d == 0 || todo[d - 1].block < todo[d].block {
      FirstFromTodo(chain, startBlock, CursorOf(tb), d);
      assert todo[d] in todo;
      forall life | Life(plan, chain, startBlock, tb, life) && Survived(life)
        ensures CursorOf(AfterLife(plan, tb, life)) < todo[d].block
      {
        LifeStuck(plan, chain, startBlock, tb, life, todo[d]);
      }
    } else {
      var life := OneSession(plan, chain, startBlock, tb, d);
      assert CursorOf(AfterLife(plan, tb, life)) >= todo[d].block;
    }
  }

  // ---------- the event indexes over a life ----------

  /** Stopped anywhere, an act keeps the indexes sound. */
  ghost predicate KeepsSound(plan: Plan, chain: set<Log>) {
    forall tb: Table, a: Act, n: nat :: Sound(chain, tb) && From(chain, a) && n <= |plan(tb, a)| ==>
      Sound(chain, ApplyAll(tb, plan(tb, a)[..n]))
  }

  predicate From(chain: set<Log>, a: Act) { a.Deliver? ==> a.log in chain }

  lemma HandlingKeepsSound(chain: set<Log>)
    requires Distinct(chain)
    ensures KeepsSound(Handling(), chain)
  {
    forall tb: Table, a: Act, n: nat | Sound(chain, tb) && From(chain, a) && n <= |Handling()(tb, a)|
      ensures Sound(chain, ApplyAll(tb, Handling()(tb, a)[..n]))
    {
      ActSound(chain, tb, a, n);
    }
  }

  lemma {:induction false} ActSound(chain: set<Log>, tb: Table, a: Act, n: nat)
    requires Distinct(chain) && Sound(chain, tb) && From(chain, a)
    requires n <= |Handling()(tb, a)|
    ensures Sound(chain, ApplyAll(tb, Handling()(tb, a)[..n]))
  {
    match a
    case Deliver(l) => StopKeepsSound(chain, tb, l, n);
    case Advance(b) =>
      var w := CursorWrite(b);
      assert [w][..0] == [] && [w][..1] == [w];
      assert ApplyAll(tb, [w]) == Apply(ApplyAll(tb, []), w);
      CursorKeepsSound(chain, tb, b);
  }

  lemma {:induction false} EffectSound(plan: Plan, chain: set<Log>, tb: Table, acts: seq<Act>)
    requires KeepsSound(plan, chain) && Sound(chain, tb)
    requires forall a :: a in acts ==> From(chain, a)
    ensures Sound(chain, Effect(plan, tb, acts))
  {
    if acts != [] {
      var m := |acts| - 1;
      var mid := Effect(plan, tb, acts[..m]);
      EffectSound(plan, chain, tb, acts[..m]);
      assert acts[m] in acts;
      assert plan(mid, acts[m])[..|plan(mid, acts[m])|] == plan(mid, acts[m]);
    }
  }

  function LogSet(chain: seq<Log>): set<Log> { set l | l in chain }

  lemma ChainDistinct(chain: seq<Log>)
    requires ChainOrder(chain)
    ensures Distinct(LogSet(chain))
  {
    forall l, k | l in chain && k in chain && l.block == k.block && l.index == k.index ensures l == k {
      var i :| 0 <= i < |chain| && chain[i] == l;
      var j :| 0 <= j < |chain| && chain[j] == k;
      assert !Before(chain[i], chain[j]) && !Before(chain[j], chain[i]);
    }
  }

  lemma {:induction false} LegalFromChain(chain: seq<Log>, startBlock: nat, c: nat, acts: seq<Act>)
    requires GoodChain(chain) && StartOk(startBlock, c) && Legal(Todo(chain, startBlock, c), c, acts)
    ensures forall a :: a in acts ==> From(LogSet(chain), a)
  {
    if acts != [] {
      var m := |acts| - 1;
      LegalFromChain(chain, startBlock, c, acts[..m]);
      TodoAhead(chain, startBlock, c);
      if acts[m].Deliver? { assert acts[m].log in Todo(chain, startBlock, c); }
      assert acts == acts[..m] + [acts[m]];
    }
  }

  lemma SessionSound(plan: Plan, chain: seq<Log>, startBlock: nat, now: Table, s: Session)
    requires CursorLast(plan) && GoodChain(chain) && StartOk(startBlock, CursorOf(now))
    requires Follows(plan, chain, startBlock, now, s)
    requires KeepsSound(plan, LogSet(chain)) && Sound(LogSet(chain), now)
    ensures Sound(LogSet(chain), AfterSession(plan, now, s))
  {
    LegalFromChain(chain, startBlock, CursorOf(now), s.acts);
    var j, n := StopInside(plan, now, s.acts, s.cut);
    EffectSound(plan, LogSet(chain), now, s.acts[..j]);
    if j < |s.acts| { assert s.acts[j] in s.acts; }
  }

  /** At every stop of every life, replays included, each index entry of the generic events points at
      an existing event with the token or address it is filed under. */
  lemma {:induction false} LifeSound(plan: Plan, chain: seq<Log>, startBlock: nat, tb: Table,
                                     life: seq<Session>)
    requires CursorLast(plan) && GoodChain(chain) && StartOk(startBlock, CursorOf(tb))
    requires Life(plan, chain, startBlock, tb, life)
    requires KeepsSound(plan, LogSet(chain)) && Sound(LogSet(chain), tb)
    ensures Sound(LogSet(chain), AfterLife(plan, tb, life))
  {
    if life != [] {
      var init := life[..|life| - 1];
      LifeSound(plan, chain, startBlock, tb, init);
      LifeStartOk(plan, chain, startBlock, tb, init);
      SessionSound(plan, chain, startBlock, AfterLife(plan, tb, init), life[|life| - 1]);
    }
  }

  // ---------- the life of the indexer ----------

  /** The laws of this module for the indexer itself, over any number of sessions and stops: the cursor
      never decreases, logs are completed in chain order and so none twice, none is left out unless
      a session was stopped with the cursor at its block, and the event indexes stay sound. */
  lemma {:induction false} LifeOfTheIndexer(chain: seq<Log>, startBlock: nat, tb: Table, life: seq<Session>)
    requires GoodChain(chain) && StartOk(startBlock, CursorOf(tb))
    requires Life(Handling(), chain, startBlock, tb, life)
    ensures forall m :: 0 <= m <= |life| ==>
      CursorOf(AfterLife(Handling(), tb, life[..m])) <= CursorOf(AfterLife(Handling(), tb, life))
    ensures ChainOrder(AllCompleted(Handling(), tb, life))
    ensures forall l | l in Todo(chain, startBlock, CursorOf(tb)) && l.block <= CursorOf(AfterLife(Handling(), tb, life)) ::
      l in AllCompleted(Handling(), tb, life) || StoppedAt(Handling(), tb, life, l.block)
    ensures Sound(LogSet(chain), tb) ==> IndexSound(AfterLife(Handling(), tb, life))
  {
    HandlingCursorLast();
    LifeLaw(Handling(), chain, startBlock, tb, life);
    if Sound(LogSet(chain), tb) {
      ChainDistinct(chain);
      HandlingKeepsSound(LogSet(chain));
      LifeSound(Handling(), chain, startBlock, tb, life);
      SoundIndex(LogSet(chain), AfterLife(Handling(), tb, life));
    }
  }

  lemma {:induction false} LifeLaw(plan: Plan, chain: seq<Log>, startBlock: nat, tb: Table,
                                   life: seq<Session>)
    requires CursorLast(plan) && GoodChain(chain) && StartOk(startBlock, CursorOf(tb))
    requires Life(plan, chain, startBlock, tb, life)
    ensures forall m :: 0 <= m <= |life| ==>
      CursorOf(AfterLife(plan, tb, life[..m])) <= CursorOf(AfterLife(plan, tb, life))
    ensures ChainOrder(AllCompleted(plan, tb, life))
    ensures forall l :: l in Todo(chain, startBlock, CursorOf(tb)) && l.block <= CursorOf(AfterLife(plan, tb, life)) ==>
      l in AllCompleted(plan, tb, life) || StoppedAt(plan, tb, life, l.block)
  {
    forall m | 0 <= m <= |life|
      ensures CursorOf(AfterLife(plan, tb, life[..m])) <= CursorOf(AfterLife(plan, tb, life))
    {
      CursorNeverDecreases(plan, chain, startBlock, tb, life, m);
    }
    CompletedInOrder(plan, chain, startBlock, tb, life);
    forall l | l in Todo(chain, startBlock, CursorOf(tb)) && l.block <= CursorOf(AfterLife(plan, tb, life))
      ensures l in AllCompleted(plan, tb, life) || StoppedAt(plan, tb, life, l.block)
    {
      NothingElseLost(plan, chain, startBlock, tb, life, l);
    }
  }
}
