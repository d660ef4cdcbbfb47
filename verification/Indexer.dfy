/** The indexer: handling logs, backfilling in chunks, polling.

The node answers or fails as it likes. Whatever it does, one uninterrupted run issues the writes of
a legal session, and at every chunk and poll boundary has handled exactly the chain's logs from
its start up to the cursor.
*/
module Indexer {
  import opened Keys
  import opened Rows
  import opened Plans
  import opened Logs
  import opened Chains
  import opened Sessions
  import opened Delivery
  import opened Accounts
  import Ledger
  import opened EventStream
  import opened Runs
  import Store

  /** Block numbers stay clear of the 64-bit limit by more than a chunk. */
  const MAX_HEAD: nat := TWO64 - 1001

  /** What has been asked of the node and what came of it: log requests, the ranges answered, the heads
      reported, how many log requests in a row were refused since the last answer, and whether the
      run was found to be cancelled. */
  datatype Calls = Calls(requests: nat, answered: seq<(nat, nat)>, heads: seq<Option<nat>>,
                         refused: nat, cancelled: bool) {
    /** The last range was given up: refused six times, or refused and then cancelled. */
    predicate GaveUp() { refused > MAX_RETRIES || (refused > 0 && cancelled) }
  }

  const NO_CALLS := Calls(0, [], [], 0, false)

  /** The node: reports a head and answers log requests, or fails. Heads may go up and down. */
  class Node {
    const chain: seq<Log>
    ghost var calls: Calls

    constructor (logs: seq<Log>)
      ensures chain == logs && calls == NO_CALLS
    {
      chain, calls := logs, NO_CALLS;
    }

    method BlockNumber() returns (head: Option<nat>)
      modifies this
      ensures head.Some? ==> head.value < MAX_HEAD
      ensures calls == old(calls).(heads := old(calls).heads + [head])
    {
      var h: nat := *;
      head := if h < MAX_HEAD then Some(h) else None;
      calls := calls.(heads := calls.heads + [head]);
    }

    /** Fails, or returns exactly the logs of the range in chain order. */
    method FilterLogs(from: nat, to: nat) returns (logs: Option<seq<Log>>)
      modifies this
      ensures logs.Some? ==> logs.value == Pick(chain, from, to)
      ensures calls == Requested(old(calls), from, to, logs.Some?)
    {
      if * {
        logs := Some(Pick(chain, from, to));
      } else {
        logs := None;
      }
      calls := Requested(calls, from, to, logs.Some?);
    }

    method Cancelled() returns (b: bool)
      modifies this
      ensures calls == old(calls).(cancelled := old(calls).cancelled || b)
    {
      b := *;
      calls := calls.(cancelled := calls.cancelled || b);
    }
  }

  /** One log request more, answered or refused. */
  function Requested(calls: Calls, from: nat, to: nat, ok: bool): Calls {
    if ok then calls.(requests := calls.requests + 1, answered := calls.answered + [(from, to)], refused := 0)
    else calls.(requests := calls.requests + 1, refused := calls.refused + 1)
  }

  /** Ranges that follow one another from `lo` to `hi` without gap or overlap, none longer than a
      chunk. */
  ghost predicate Tiles(ranges: seq<(nat, nat)>, lo: int, hi: int) {
    if ranges == [] then lo == hi + 1
    else
      var r := ranges[|ranges| - 1];
      r.1 == hi && r.0 <= r.1 <= r.0 + CHUNK && Tiles(ranges[..|ranges| - 1], lo, r.0 - 1)
  }

  /** Six requests for each chunk of the range up to the head. */
  function Budget(from: nat, head: Option<nat>): nat {
    if head.Some? && from <= head.value then 6 * ((head.value - from + 1 + CHUNK) / (CHUNK + 1)) else 0
  }

  lemma {:induction false} OneMore(ranges: seq<(nat, nat)>, lo: nat, from: nat, to: nat)
    requires Tiles(ranges, lo, from - 1) && from <= to <= from + CHUNK
    ensures Tiles(ranges + [(from, to)], lo, to)
  {
    assert (ranges + [(from, to)])[..|ranges|] == ranges;
  }

  /** After some chunks of a range up to `latest`, the next one would begin at `from`, and the chunks
      so far have reached the block before it, or `latest`. */
  ghost predicate ChunkAt(start: nat, latest: nat, chunks: nat, from: nat, reached: nat) {
    && from == start + 1001 * chunks && (chunks == 0 || from - 1001 <= latest)
    && start <= reached + 1 == if from <= latest then from else latest + 1
  }

  lemma ChunkDue(start: nat, latest: nat, chunks: nat, from: nat, reached: nat)
    requires ChunkAt(start, latest, chunks, from, reached) && from <= latest
    ensures start <= from == reached + 1
  {
  }

  function Cost(chunks: nat): nat { 6 * chunks }

  lemma NextChunk(start: nat, latest: nat, chunks: nat, from: nat, reached: nat, to: nat)
    requires ChunkAt(start, latest, chunks, from, reached) && from <= latest < MAX_HEAD
    requires to == if from + CHUNK <= latest then from + CHUNK else latest
    ensures reached + 1 == from <= to <= latest && to <= from + CHUNK
    ensures from < Add64(from, CHUNK + 1) && ChunkAt(start, latest, chunks + 1, Add64(from, CHUNK + 1), to)
    ensures Cost(chunks + 1) == Cost(chunks) + MAX_RETRIES + 1
    ensures Cost(chunks + 1) <= Budget(start, Some(latest))
  {
  }

  /** A chunk is 1001 blocks, and a range is given up at the sixth refusal. */
  lemma Figures(heads: seq<Option<nat>>, answered: seq<(nat, nat)>, n: nat)
    ensures Budget(1, Some(1001)) == 6 && Budget(1, Some(1002)) == 12
    ensures !Calls(n, answered, heads, 5, false).GaveUp() && Calls(n, answered, heads, 6, false).GaveUp()
  {
  }

  /** Addition of unsigned 64-bit numbers: it wraps around. */
  function Add64(a: nat, b: nat): (r: nat)
    ensures a + b < TWO64 ==> r == a + b
  {
    (a + b) % TWO64
  }

  /** What came of a backfill: where it began, the head it was told, up to where it got, and whether it
      got through. */
  datatype Outcome = Outcome(from: nat, head: Option<nat>, reached: int, done: bool)

  /** There is a range to fetch. */
  predicate HasRange(o: Outcome) { o.from > 0 && o.head.Some? && o.from <= o.head.value }

  /** The outcome is what the node made of it. Without a first block nothing is asked. Otherwise the head
      is asked for once, the answered ranges tile the blocks from the first up to where it got, with
      at most six requests a chunk, and it stops short of the head only if it gave up on a range. */
  ghost predicate Explains(calls: Calls, o: Outcome) {
    && calls.heads == (if o.from == 0 then [] else [o.head])
    && Tiles(calls.answered, o.from, o.reached)
    && calls.requests <= Budget(o.from, o.head)
    && (o.done <==> o.from == 0 || (o.head.Some? && !calls.GaveUp()))
    && (if HasRange(o) then o.reached <= o.head.value && (o.done <==> o.reached == o.head.value)
        else o.reached == o.from - 1)
  }

  /** What came of a poll: the head reported, and whether a log request was made and answered. */
  datatype Poll = Poll(head: Option<nat>, answered: bool)

  /** A poll asks for logs when it knows a head above a cursor that is there, and moves the cursor to the
      head when it gets them. */
  predicate Asks(c: nat, p: Poll) { p.head.Some? && 0 < c < p.head.value }
  predicate Moves(c: nat, p: Poll) { Asks(c, p) && p.answered }
  function CursorPolled(c: nat, p: Poll): nat { if Moves(c, p) then p.head.value else c }

  function CallsPolled(calls: Calls, c: nat, p: Poll): Calls {
    var told := calls.(heads := calls.heads + [p.head]);
    if Asks(c, p) then Requested(told, c + 1, p.head.value, p.answered) else told
  }

  /** The same after some polls. */
  function CursorAfterPolls(c: nat, polls: seq<Poll>): nat {
    if polls == [] then c
    else CursorPolled(CursorAfterPolls(c, polls[..|polls| - 1]), polls[|polls| - 1])
  }

  function CallsAfterPolls(calls: Calls, c: nat, polls: seq<Poll>): Calls {
    if polls == [] then calls
    else
      var init := polls[..|polls| - 1];
      CallsPolled(CallsAfterPolls(calls, c, init), CursorAfterPolls(c, init), polls[|polls| - 1])
  }

  lemma {:induction false} PollsNext(calls: Calls, c: nat, polls: seq<Poll>, p: Poll)
    ensures CursorAfterPolls(c, polls + [p]) == CursorPolled(CursorAfterPolls(c, polls), p)
    ensures CallsAfterPolls(calls, c, polls + [p])
         == CallsPolled(CallsAfterPolls(calls, c, polls), CursorAfterPolls(c, polls), p)
  {
    assert (polls + [p])[..|polls|] == polls;
  }

  /** What one poll does, in full: below a head that is there, and above a cursor that is there, one request
      for everything in between; the cursor moves to the head if it is answered. */
  lemma PollMeans(calls: Calls, c: nat, p: Poll)
    ensures var after := CallsPolled(calls, c, p);
      && after.heads == calls.heads + [p.head]
      && (forall h :: p.head == Some(h) && 0 < c && c + 1 <= h ==>
           && after.requests == calls.requests + 1
           && after.answered == (if p.answered then calls.answered + [(c + 1, h)] else calls.answered)
           && CursorPolled(c, p) == (if p.answered then h else c))
      && (p.head.None? || c == 0 || p.head.value <= c ==>
           && after.requests == calls.requests && after.answered == calls.answered
           && CursorPolled(c, p) == c)
  {
  }

  /** The same for the last of some polls. */
  lemma LastPollMeans(calls: Calls, c: nat, polls: seq<Poll>)
    requires polls != []
    ensures var init, p := polls[..|polls| - 1], polls[|polls| - 1];
      var before, after := CallsAfterPolls(calls, c, init), CallsAfterPolls(calls, c, polls);
      var from, to := CursorAfterPolls(c, init), CursorAfterPolls(c, polls);
      && after.heads == before.heads + [p.head]
      && (forall h :: p.head == Some(h) && 0 < from && from + 1 <= h ==>
           && after.requests == before.requests + 1
           && after.answered == (if p.answered then before.answered + [(from + 1, h)] else before.answered)
           && to == (if p.answered then h else from))
      && (p.head.None? || from == 0 || p.head.value <= from ==>
           && after.requests == before.requests && after.answered == before.answered && to == from)
  {
    var init := polls[..|polls| - 1];
    PollMeans(CallsAfterPolls(calls, c, init), CursorAfterPolls(c, init), polls[|polls| - 1]);
  }

  /** Polling begins only with a cursor. */
  lemma {:induction false} NoCursorNoPoll(c: nat, polls: seq<Poll>)
    ensures CursorAfterPolls(c, polls) == 0 <==> c == 0
    ensures c <= CursorAfterPolls(c, polls)
  {
    if polls != [] { NoCursorNoPoll(c, polls[..|polls| - 1]); }
  }

  const CHUNK: nat := 1000
  const MAX_RETRIES: nat := 5

  class Indexer {
    const store: Store.Store
    const node: Node
    const startBlock: nat
    ghost const first: Table         // the table the process started from
    ghost const plan: Plan           // what an act writes
    ghost const todo: seq<Log>       // the logs this run is to handle, in order
    ghost var acts: seq<Act>         // what the run has done so far

    constructor (s: Store.Store, n: Node, start: nat)
      requires s.Valid() && s.db.history == [] && StartOk(start, CursorOf(s.db.table))
      requires GoodChain(n.chain) && Handleable(n.chain)
      ensures store == s && node == n && startBlock == start
      ensures Planned() && Valid() && acts == [] && first == s.db.table
    {
      store, node, startBlock := s, n, start;
      first, acts := s.db.table, [];
      plan := Handling();
      todo := Todo(n.chain, start, CursorOf(s.db.table));
    }

    /** What the run was set up for. */
    ghost predicate Planned() {
      && GoodChain(node.chain) && Handleable(node.chain)
      && StartOk(startBlock, CursorOf(first)) && Typed(first)
      && todo == Todo(node.chain, startBlock, CursorOf(first)) && plan == Handling()
    }

    /** How many logs the run has handled, provided that what it did is a legal session and the
        database is where that session leads. */
    ghost function Progress(): Option<nat>
      reads this, store, store.db
    {
      if store.Valid() && InSession(plan, todo, first, acts, store.db.table, store.db.history)
      then Some(|Delivered(acts)|)
      else None
    }

    ghost predicate Valid()
      reads this, store, store.db
    {
      Progress().Some?
    }

    /** Everything to be handled before this block has been handled, and nothing from it on. */
    ghost predicate ReadyFor(block: nat)
      reads this
    {
      ReadyAt(todo, |Delivered(acts)|, block)
    }

    /** The state at every chunk and poll boundary. */
    ghost predicate InStep()
      reads this, store, store.db
    {
      Aligned(node.chain, StartFrom(startBlock, CursorOf(first)), todo, Delivered(acts), CursorOf(store.db.table))
    }

    /** Handled are exactly the logs of the chain, less those without topics, from the start of the run up to
        this block, in order. */
    ghost predicate HandledTo(block: nat)
      reads this
    {
      Delivered(acts) == Topical(Pick(node.chain, StartFrom(startBlock, CursorOf(first)), block))
    }

    lemma CursorNow()
      requires Planned() && Valid()
      ensures CursorOf(store.db.table) == CursorAfter(CursorOf(first), acts) < TWO64 - 1
      ensures CursorOf(first) <= CursorOf(store.db.table)
      ensures StartOk(startBlock, CursorOf(store.db.table))
      ensures CursorOf(store.db.table) > 0 ==> StartFrom(startBlock, CursorOf(first)) > 0
    {
      TodoAhead(node.chain, startBlock, CursorOf(first));
      HandlingCursorLast();
      CursorRow(plan, first, todo, acts);
      CursorBetween(todo, CursorOf(first), acts);
      StartStaysOk(node.chain, startBlock, CursorOf(first), acts);
      if CursorOf(store.db.table) > 0 { SomeStart(todo, startBlock, CursorOf(first), acts); }
    }

    // ---------- handling one log ----------

    method HandleLedger(l: Log)
      requires store.Valid() && LedgerOp(l).Some?
      modifies store.db
      ensures store.Valid()
      ensures store.db.history == old(store.db.history) + HandlerWrites(old(store.db.table), l)
      ensures store.db.table == ApplyAll(old(store.db.table), HandlerWrites(old(store.db.table), l))
    {
      match LedgerOp(l).value {
        case Mint(t, to, n) => store.RecordMint(t, to, n, l.Stamp());
        case Burn(t, from, n) => store.RecordBurn(t, from, n, l.Stamp());
        case Transfer(t, from, to, n) => store.RecordTransfer(t, from, to, n, l.Stamp());
      }
    }

    method HandleForcedTransfer(l: Log)
      requires store.Valid() && l.sig == ForcedTransfer
      modifies store.db
      ensures store.Valid()
      ensures store.db.history == old(store.db.history) + ForcedWrites(l)
      ensures store.db.table == ApplyAll(old(store.db.table), ForcedWrites(l))
    {
      if |l.args| < 3 {
        return;
      }
      var e := TransferEvent(l.tx, l.block, l.index, AddrText(l.args[1]), AddrText(l.args[2]),
                             TokenText(l.args[0]), Word(l.data, 0), "forced_transfer");
      store.RecordEventOnly(e);
      store.Caught(old(store.db.history), old(store.db.table), [EventWrite(e)]);
    }

    method HandleAsset(l: Log)
      requires store.Valid() && |l.args| >= RecordNeeds(l.sig)
      requires l.sig == AssetRegistered || l.sig == URI || l.sig == AssetPaused || l.sig == AssetUnpaused
      modifies store.db
      ensures store.Valid()
      ensures store.db.history == old(store.db.history) + RecordWrites(old(store.db.table), l)
      ensures store.db.table == ApplyAll(old(store.db.table), RecordWrites(old(store.db.table), l))
    {
      var a;
      if l.sig == AssetRegistered {
        a := AssetConfig(TokenText(l.args[0]), AddrText(l.args[1]), Word(l.data, 0) % 0x1_0000_0000,
                         [], false, l.block);
      } else {
        a := store.GetAsset(TokenText(l.args[0]));
        match l.sig {
          case URI => a := a.(uri := UriText(l.data));
          case AssetPaused => a := a.(paused := true);
          case _ => a := a.(paused := false);
        }
      }
      assert RecordWrites(store.db.table, l) == [AssetWrite(a)];
      store.RecordAsset(a);
      store.Caught(old(store.db.history), old(store.db.table), [AssetWrite(a)]);
    }

    method HandleIdentity(l: Log)
      requires store.Valid() && |l.args| >= RecordNeeds(l.sig) && IsIdentity(l.sig)
      modifies store.db
      ensures store.Valid()
      ensures store.db.history == old(store.db.history) + RecordWrites(old(store.db.table), l)
      ensures store.db.table == ApplyAll(old(store.db.table), RecordWrites(old(store.db.table), l))
    {
      if l.sig == IdentityBound {
        store.RecordIdentity(Identity(AddrText(l.args[0]), AddrText(l.args[1]),
                                      Word(l.data, 0) % 0x1_0000, l.block));
      } else if l.sig == IdentityUnbound {
        store.DeleteIdentity(AddrText(l.args[0]));
      } else {
        Recover(AddrText(l.args[0]), AddrText(l.args[1]), l.block);
      }
    }

    /** Carries the identity of a lost wallet over to a new one; nothing if it has none. */
    method Recover(lost: Addr, next: Addr, block: nat)
      requires store.Valid()
      modifies store.db
      ensures store.Valid()
      ensures store.db.history == old(store.db.history) + RecoverWrites(old(store.db.table), lost, next, block)
      ensures store.db.table == ApplyAll(old(store.db.table), RecoverWrites(old(store.db.table), lost, next, block))
    {
      var existing := store.GetIdentity(lost);
      if existing.Some? {
        var id := Identity(next, existing.value.identity, existing.value.country, block);
        store.RecordIdentity(id);
        store.DeleteIdentity(lost);
        assert store.db.history == old(store.db.history) + RecoverWrites(old(store.db.table), lost, next, block);
        store.Caught(old(store.db.history), old(store.db.table), RecoverWrites(old(store.db.table), lost, next, block));
      }
    }

    method HandleFreeze(l: Log)
      requires store.Valid() && |l.args| >= RecordNeeds(l.sig)
      requires l.sig == WalletFrozen || l.sig == AssetFrozen || l.sig == PartialFreeze || l.sig == LockupSet
      modifies store.db
      ensures store.Valid()
      ensures store.db.history == old(store.db.history) + RecordWrites(old(store.db.table), l)
      ensures store.db.table == ApplyAll(old(store.db.table), RecordWrites(old(store.db.table), l))
    {
      if l.sig == PartialFreeze {
        store.UpdateFreezeAmount(AddrText(l.args[1]), TokenText(l.args[0]), AmountText(l.data));
      } else if l.sig == LockupSet {
        store.UpdateLockupExpiry(AddrText(l.args[1]), TokenText(l.args[0]), Word(l.data, 0) % TWO64);
      } else {
        var f := if l.sig == WalletFrozen
          then FreezeState(AddrText(l.args[0]), "", Word(l.data, 0) != 0, "", 0)
          else FreezeState(AddrText(l.args[1]), TokenText(l.args[0]), Word(l.data, 0) != 0, "", 0);
        store.RecordFreeze(f);
        store.Caught(old(store.db.history), old(store.db.table), [FreezeWrite(f)]);
      }
    }

    method HandleRecord(l: Log)
      requires store.Valid()
      modifies store.db
      ensures store.Valid()
      ensures store.db.history == old(store.db.history) + RecordPart(old(store.db.table), l)
      ensures store.db.table == ApplyAll(old(store.db.table), RecordPart(old(store.db.table), l))
    {
      if |l.args| < RecordNeeds(l.sig) {
        return;
      }
      match l.sig {
        case AssetRegistered => HandleAsset(l);
        case URI => HandleAsset(l);
        case AssetPaused => HandleAsset(l);
        case AssetUnpaused => HandleAsset(l);
        case IdentityBound => HandleIdentity(l);
        case IdentityUnbound => HandleIdentity(l);
        case WalletRecovered => HandleIdentity(l);
        case WalletFrozen => HandleFreeze(l);
        case AssetFrozen => HandleFreeze(l);
        case PartialFreeze => HandleFreeze(l);
        case LockupSet => HandleFreeze(l);
        case _ =>
      }
    }

    method RecordGeneric(l: Log)
      requires store.Valid()
      modifies store.db
      ensures store.Valid()
      ensures store.db.history == old(store.db.history) + GenericPart(l)
      ensures store.db.table == ApplyAll(old(store.db.table), GenericPart(l))
    {
      var e := GenericOf(l);
      if e.Some? {
        store.RecordGenericEvent(e.value);
      }
    }

    /** An event outside the ledger: its own record first, then the generic event. */
    method HandleOther(l: Log)
      requires store.Valid()
      modifies store.db
      ensures store.Valid()
      ensures var ws := RecordPart(old(store.db.table), l) + GenericPart(l);
        store.db.history == old(store.db.history) + ws && store.db.table == ApplyAll(old(store.db.table), ws)
    {
      HandleRecord(l);
      RecordGeneric(l);
      store.CaughtBoth(old(store.db.history), old(store.db.table),
                       RecordPart(old(store.db.table), l), GenericPart(l));
    }

    /** Dispatch on the first topic. */
    method Dispatch(l: Log)
      requires store.Valid() && l.sig != NoTopics
      modifies store.db
      ensures store.Valid()
      ensures store.db.history == old(store.db.history) + HandlerWrites(old(store.db.table), l)
      ensures store.db.table == ApplyAll(old(store.db.table), HandlerWrites(old(store.db.table), l))
    {
      if LedgerOp(l).Some? {
        HandleLedger(l);
      } else if l.sig == ForcedTransfer {
        HandleForcedTransfer(l);
      } else {
        HandleOther(l);
      }
    }

    /** Dispatches a log and then moves the cursor to its block. */
    method Record(l: Log)
      requires store.Valid() && l.sig != NoTopics && l.block < TWO64
      modifies store.db
      ensures store.Valid()
      ensures store.db.history == old(store.db.history) + LogWrites(old(store.db.table), l)
      ensures store.db.table == ApplyAll(old(store.db.table), LogWrites(old(store.db.table), l))
      ensures CursorOf(store.db.table) == l.block
    {
      Dispatch(l);
      store.SetCursor(l.block);
      store.CaughtBoth(old(store.db.history), old(store.db.table),
                       HandlerWrites(old(store.db.table), l), [CursorWrite(l.block)]);
    }

    /** Handles one log, the cursor last; a log without topics leaves everything alone. */
    method HandleLog(l: Log)
      requires Planned() && Valid() && l in node.chain
      requires l.sig != NoTopics ==> IsNext(todo, |Delivered(acts)|, l)
      modifies this`acts, store.db
      ensures Valid()
      ensures acts == if l.sig == NoTopics then old(acts) else old(acts) + [Deliver(l)]
      ensures CursorOf(store.db.table) == if l.sig == NoTopics then old(CursorOf(store.db.table)) else l.block
    {
      if l.sig == NoTopics {
        return;
      }
      assert Readable(l);
      Record(l);
      Did(Deliver(l), old(store.db.table), old(store.db.history));
    }

    /** Notes an act that has been carried out. */
    ghost method Did(a: Act, tb: Table, history: seq<Write>)
      requires store.Valid() && InSession(plan, todo, first, acts, tb, history)
      requires Allowed(todo, CursorOf(first), acts, a)
      requires store.db.table == ApplyAll(tb, plan(tb, a))
      requires store.db.history == history + plan(tb, a)
      modifies this`acts
      ensures Valid() && acts == old(acts) + [a]
    {
      SessionSnoc(plan, todo, first, acts, tb, history, a);
      acts := acts + [a];
    }

    // ---------- ranges of logs ----------

    /** Handles the i-th of some logs that are due. */
    method HandleOne(logs: seq<Log>, i: nat, ghost d: nat, ghost to: nat)
      requires Planned() && Valid() && Due(node.chain, todo, d, logs, to) && i < |logs|
      requires |Delivered(acts)| == d + TopicalUpTo(logs, i) && CursorOf(store.db.table) <= to
      modifies this`acts, store.db
      ensures Valid() && old(CursorOf(store.db.table)) <= CursorOf(store.db.table) <= to
      ensures |Delivered(acts)| == d + TopicalUpTo(logs, i + 1)
    {
      var l := logs[i];
      assert DueAt(node.chain, todo, d, logs, to, i);
      TopicalNext(logs, i);
      DeliveredSnoc(acts, l);
      CursorNow();
      TodoAhead(node.chain, startBlock, CursorOf(first));
      PositionKnown(todo, CursorOf(first), acts);
      HandleLog(l);
    }

    /** Handles some logs that are due, one after the other. */
    method HandleLogs(logs: seq<Log>, ghost to: nat, ghost next: nat)
      requires Planned() && Valid() && CursorOf(store.db.table) <= to
      requires Due(node.chain, todo, |Delivered(acts)|, logs, to) && next == |Delivered(acts)| + |Topical(logs)|
      modifies this`acts, store.db
      ensures Valid() && old(CursorOf(store.db.table)) <= CursorOf(store.db.table) <= to
      ensures |Delivered(acts)| == next
    {
      ghost var d := |Delivered(acts)|;
      for i := 0 to |logs|
        invariant Valid() && old(CursorOf(store.db.table)) <= CursorOf(store.db.table) <= to
        invariant |Delivered(acts)| == d + TopicalUpTo(logs, i)
      {
        HandleOne(logs, i, d, to);
      }
      assert logs[..|logs|] == logs;
    }

    /** Handles an answered range: afterwards everything up to its end has been handled. */
    method HandleRange(logs: seq<Log>, ghost from: nat, ghost to: nat)
      requires Planned() && Valid() && ReadyFor(from) && logs == Pick(node.chain, from, to)
      requires 0 < StartFrom(startBlock, CursorOf(first)) <= from <= to < MAX_HEAD
      requires CursorOf(store.db.table) <= to
      modifies this`acts, store.db
      ensures Valid() && ReadyFor(to + 1)
      ensures old(CursorOf(store.db.table)) <= CursorOf(store.db.table) <= to
    {
      ghost var next := RangeDue(node.chain, startBlock, CursorOf(first), todo, |Delivered(acts)|, logs, from, to);
      HandleLogs(logs, to, next);
    }

    /** Being ready for a block above the cursor puts the run in step. */
    lemma BackInStep(block: nat)
      requires Planned() && Valid() && ReadyFor(block) && CursorOf(store.db.table) < block
      ensures InStep()
    {
      CursorNow();
      ReadyAligned(node.chain, startBlock, CursorOf(first), acts, block);
    }

    /** In step, the store holds what handling exactly the chain's logs from the start of the run up to the
        cursor, once each and in order, makes of the table the process started from, and every token's
        account is that of the plain ledger. */
    lemma {:induction false} StoreFollowsChain(u: Token)
      requires Planned() && Valid() && InStep()
      ensures var logs := Indexed(node.chain, StartFrom(startBlock, CursorOf(first)), CursorOf(store.db.table));
        && SameButCursor(store.db.table, HandleAll(first, logs))
        && AccountOf(store.db.table, u) == Ledger.Run(AccountOf(first, u), OnToken(OpsOf(logs), u))
    {
      var done := Delivered(acts);
      CursorNow();
      TodoAhead(node.chain, startBlock, CursorOf(first));
      DeliveredPrefix(todo, CursorOf(first), acts);
      forall i | 0 <= i < |done| ensures Readable(done[i]) {
        assert done[i] == todo[i] && todo[i] in todo && todo[i] in node.chain;
      }
      SessionHandles(first, acts);
      SessionAccounts(first, acts, u);
    }

    // ---------- backfill ----------

    /** Asks for one range, up to six times. It is given up only after six refusals in a row, or after a
        refusal that finds the run cancelled. */
    method Fetch(from: nat, to: nat) returns (logs: Option<seq<Log>>)
      requires node.calls.refused == 0 && !node.calls.cancelled
      modifies node
      ensures node.calls.requests <= old(node.calls).requests + MAX_RETRIES + 1
      ensures node.calls.heads == old(node.calls).heads
      ensures logs.Some? ==> logs.value == Pick(node.chain, from, to)
      ensures logs.Some? ==> node.calls.refused == 0 && !node.calls.cancelled
      ensures logs.Some? ==> node.calls.answered == old(node.calls).answered + [(from, to)]
      ensures logs.None? ==> node.calls.GaveUp() && node.calls.answered == old(node.calls).answered
    {
      logs := None;
      var attempt := 0;
      while attempt <= MAX_RETRIES
        invariant attempt <= MAX_RETRIES + 1 && logs.None?
        invariant node.calls == old(node.calls).(requests := old(node.calls).requests + attempt, refused := attempt)
      {
        logs := node.FilterLogs(from, to);
        if logs.Some? {
          return;
        }
        var cancelled := node.Cancelled();
        if cancelled {
          return;
        }
        attempt := attempt + 1;
      }
    }

    /** Where a run begins: past the cursor if there is one, not before the configured start. */
    method FirstBlock() returns (from: nat)
      requires Planned() && Valid() && acts == []
      ensures from == StartFrom(startBlock, CursorOf(first)) < TWO64
      ensures Valid() && ReadyFor(from) && (from > 0 ==> CursorOf(store.db.table) < from)
      ensures from == 0 ==> CursorOf(store.db.table) == 0
    {
      CursorNow();
      from := startBlock;
      var cursor := store.GetCursor();
      if cursor > 0 {
        var next := Add64(cursor, 1);
        if next > from {
          from := next;
        }
      }
      FirstOfRest(node.chain, from);
    }

    /** How many log requests it took to have everything from the start up to a block fetched, in tiles, and
        handled; nothing if that is not the state, or if the budget for the range is exceeded. */
    ghost function Spent(b: nat, start: nat, latest: nat): Option<nat>
      reads this, store, store.db, node
    {
      if Valid() && ReadyFor(b + 1) && CursorOf(store.db.table) <= b && Tiles(node.calls.answered, start, b) &&
         node.calls.requests <= Budget(start, Some(latest))
      then Some(node.calls.requests)
      else None
    }

    /** Everything up to a block has been fetched and handled, within the budget for the range. */
    ghost predicate Reached(b: nat, start: nat, latest: nat)
      reads this, store, store.db, node
    {
      Spent(b, start, latest).Some?
    }

    /** The last log request, if any, was answered. */
    ghost predicate Served()
      reads node
    {
      node.calls.refused == 0 && !node.calls.cancelled
    }

    /** Fetches a chunk and, if it is answered, handles it. */
    method Chunk(from: nat, to: nat, ghost start: nat, ghost latest: nat) returns (ok: bool)
      requires Planned() && from > 0 && Reached(from - 1, start, latest) && Served()
      requires 0 < StartFrom(startBlock, CursorOf(first)) <= from <= to < MAX_HEAD && to <= from + CHUNK
      requires node.calls.requests + MAX_RETRIES + 1 <= Budget(start, Some(latest))
      modifies this`acts, store.db, node
      ensures Reached(if ok then to else from - 1, start, latest)
      ensures if ok then Served() else node.calls.GaveUp()
      ensures node.calls.requests <= old(node.calls).requests + MAX_RETRIES + 1
      ensures node.calls.heads == old(node.calls).heads
    {
      ghost var answered := node.calls.answered;
      var logs := Fetch(from, to);
      ok := logs.Some?;
      if ok {
        HandleRange(logs.value, from, to);
        OneMore(answered, start, from, to);
      }
    }

    /** Fetches and handles everything from the start to the head, chunk by chunk, unless the node gives it
        no head or refuses a range. Wherever it stops, the run is in step, and everything up to there
        has been handled. There is a cursor afterwards exactly if there was one or a log was handled. */
    method Backfill() returns (ghost o: Outcome)
      requires Planned() && Valid() && acts == [] && node.calls == NO_CALLS
      modifies this`acts, store.db, node
      ensures Valid() && InStep() && Explains(node.calls, o)
      ensures o.from == StartFrom(startBlock, CursorOf(first))
      ensures o.from > 0 ==> o.from <= o.reached + 1 && ReadyFor(o.reached + 1)
      ensures o.from > 0 && o.done ==> o.head.Some? && o.head.value <= o.reached
      ensures CursorOf(store.db.table) == 0 <==> CursorOf(first) == 0 && Silent(node.chain, o.from, o.reached)
    {
      var from := FirstBlock();
      if from == 0 {
        BackInStep(1);
        o := Outcome(0, None, -1, true);
      } else {
        o := FillFrom(from);
        StandsAt(o.reached + 1);
      }
    }

    /** The backfill from a first block on. */
    method FillFrom(from: nat) returns (ghost o: Outcome)
      requires Planned() && Valid() && ReadyFor(from) && CursorOf(store.db.table) < from
      requires 0 < StartFrom(startBlock, CursorOf(first)) <= from < TWO64 && node.calls == NO_CALLS
      modifies this`acts, store.db, node
      ensures o.from == from && from <= o.reached + 1 < TWO64 && Explains(node.calls, o)
      ensures Valid() && ReadyFor(o.reached + 1) && CursorOf(store.db.table) < o.reached + 1
    {
      var head := node.BlockNumber();
      if head.None? || from > head.value {
        o := Outcome(from, head, from - 1, head.Some?);
      } else {
        var done, reached := Chunks(from, head.value);
        o := Outcome(from, head, reached, done);
        ChunksExplain(from, head.value, reached, done);
      }
    }

    lemma ChunksExplain(from: nat, latest: nat, reached: int, done: bool)
      requires 0 < from <= latest < MAX_HEAD && from <= reached + 1 && reached <= latest
      requires Reached(reached, from, latest) && node.calls.heads == [Some(latest)]
      requires done <==> reached == latest
      requires done <==> !node.calls.GaveUp()
      ensures Explains(node.calls, Outcome(from, Some(latest), reached, done))
      ensures Valid() && ReadyFor(reached + 1) && CursorOf(store.db.table) < reached + 1 < TWO64
    {
    }

    /** Being ready for a block above the cursor is being in step, and there is no cursor exactly if there
        was none and nothing to handle before that block. */
    lemma StandsAt(block: nat)
      requires Planned() && Valid() && ReadyFor(block) && CursorOf(store.db.table) < block < TWO64
      requires 0 < StartFrom(startBlock, CursorOf(first)) <= block
      ensures InStep()
      ensures CursorOf(store.db.table) == 0 <==>
        CursorOf(first) == 0 && Silent(node.chain, StartFrom(startBlock, CursorOf(first)), block - 1)
    {
      BackInStep(block);
      CursorNow();
      CursorStarts(node.chain, startBlock, CursorOf(first), acts, block);
    }

    /** In the loop over the chunks of a range: how many are done, where the next begins, what they reached. */
    ghost predicate Filling(start: nat, latest: nat, chunks: nat, from: nat, reached: nat, heads: seq<Option<nat>>)
      reads this, store, store.db, node
    {
      && ChunkAt(start, latest, chunks, from, reached)
      && Reached(reached, start, latest) && Served()
      && node.calls.requests <= Cost(chunks) && node.calls.heads == heads
    }

    /** One chunk of the loop: either the next one is due, or the range was given up. */
    method NextFill(latest: nat, from: nat, ghost start: nat, ghost chunks: nat, ghost heads: seq<Option<nat>>)
      returns (ok: bool, next: nat, ghost to: nat)
      requires Planned() && 0 < StartFrom(startBlock, CursorOf(first)) <= start <= from <= latest < MAX_HEAD
      requires Filling(start, latest, chunks, from, from - 1, heads)
      modifies this`acts, store.db, node
      ensures ok ==> from < next && Filling(start, latest, chunks + 1, next, to, heads)
      ensures !ok ==> Reached(from - 1, start, latest) && node.calls.GaveUp() && node.calls.heads == heads
    {
      var end := ChunkEnd(from, latest);
      NextChunk(start, latest, chunks, from, from - 1, end);
      ok := Chunk(from, end, start, latest);
      to := end;
      next := Add64(from, CHUNK + 1);
    }

    /** The chunks of a range, until one of them is given up. */
    method Chunks(start: nat, latest: nat) returns (done: bool, ghost reached: nat)
      requires Planned() && Valid() && ReadyFor(start) && CursorOf(store.db.table) < start
      requires node.calls.answered == [] && node.calls.requests == 0 && Served()
      requires 0 < StartFrom(startBlock, CursorOf(first)) <= start <= latest < MAX_HEAD
      modifies this`acts, store.db, node
      ensures Reached(reached, start, latest) && start <= reached + 1 && reached <= latest
      ensures done <==> reached == latest
      ensures done <==> !node.calls.GaveUp()
      ensures node.calls.heads == old(node.calls).heads
    {
      var from := start;
      reached := start - 1;
      ghost var chunks, heads := 0, node.calls.heads;
      while from <= latest
        invariant Filling(start, latest, chunks, from, reached, heads)
        decreases latest + CHUNK + 1 - from
      {
        ChunkDue(start, latest, chunks, from, reached);
        var ok;
        ghost var to;
        ok, from, to := NextFill(latest, from, start, chunks, heads);
        if !ok {
          return false, reached;
        }
        chunks, reached := chunks + 1, to;
      }
      return true, reached;
    }

    /** The end of a chunk: a whole chunk on, or the head. */
    function ChunkEnd(from: nat, latest: nat): (to: nat)
      requires from <= latest < MAX_HEAD
      ensures from <= to <= latest && to <= from + CHUNK
      ensures to == if from + CHUNK <= latest then from + CHUNK else latest
    {
      var to := Add64(from, CHUNK);
      if to > latest then latest else to
    }

    // ---------- polling ----------

    /** A poll that sees a head above a cursor that is there has made one log request; if that was answered,
        the range is on record, the cursor is at the head and the chain is handled up to it. Any other poll
        has made none. */
    ghost predicate Fetched(before: Calls, c: nat, poll: Poll)
      reads this, store, store.db, node
    {
      if poll.head.Some? && 0 < c < poll.head.value then
        && node.calls.requests == before.requests + 1
        && (poll.answered ==>
             && node.calls.answered == before.answered + [(c + 1, poll.head.value)]
             && CursorOf(store.db.table) == poll.head.value && HandledTo(poll.head.value))
      else
        node.calls.requests == before.requests && node.calls.answered == before.answered
    }

    /** Fetches and handles everything after the cursor, then moves the cursor to the head. It does so
        exactly when the node answers both requests and the head is above a cursor that is there, and
        otherwise it changes nothing. */
    method PollNewBlocks() returns (ghost poll: Poll)
      requires Planned() && Valid() && InStep()
      modifies this`acts, store.db, node
      ensures Valid() && InStep()
      ensures node.calls == CallsPolled(old(node.calls), old(CursorOf(store.db.table)), poll)
      ensures CursorOf(store.db.table) == CursorPolled(old(CursorOf(store.db.table)), poll)
      ensures node.calls.answered == old(node.calls).answered ==>
        acts == old(acts) && store.db.history == old(store.db.history)
      ensures Fetched(old(node.calls), old(CursorOf(store.db.table)), poll)
    {
      var head := node.BlockNumber();
      if head.None? {
        return Poll(head, false);
      }
      var latest := head.value;
      CursorNow();
      var cursor := store.GetCursor();
      if cursor == 0 {
        return Poll(head, false);
      }
      var from := Add64(cursor, 1);
      if from > latest {
        return Poll(head, false);
      }
      var ok := PollRange(from, latest);
      poll := Poll(head, ok);
    }

    /** Asks for everything after the cursor and, if it is answered, handles it and moves the cursor. */
    method PollRange(from: nat, latest: nat) returns (ok: bool)
      requires Planned() && Valid() && InStep() && from <= latest < MAX_HEAD
      requires 0 < CursorOf(store.db.table) && from == CursorOf(store.db.table) + 1
      modifies this`acts, store.db, node
      ensures Valid() && InStep()
      ensures node.calls == Requested(old(node.calls), from, latest, ok)
      ensures CursorOf(store.db.table) == if ok then latest else old(CursorOf(store.db.table))
      ensures !ok ==> acts == old(acts) && store.db.history == old(store.db.history)
    {
      CursorNow();
      var logs := node.FilterLogs(from, latest);
      ok := logs.Some?;
      if ok {
        HandleRange(logs.value, from, latest);
        MoveCursor(latest);
      }
    }

    /** Moves the cursor to a block everything up to which has been handled. */
    method MoveCursor(latest: nat)
      requires Planned() && Valid() && ReadyFor(latest + 1) && 0 < CursorOf(store.db.table) <= latest < MAX_HEAD
      modifies this`acts, store.db
      ensures Valid() && InStep() && CursorOf(store.db.table) == latest
    {
      CursorNow();
      ghost var tb, history := store.db.table, store.db.history;
      store.SetCursor(latest);
      store.Caught(history, tb, [CursorWrite(latest)]);
      AdvanceAllowed(todo, CursorOf(first), acts, latest);
      Did(Advance(latest), tb, history);
      AdvanceDelivers(acts, latest);
      BackInStep(latest + 1);
    }

    // ---------- a whole run ----------

    /** Backfill, whatever comes of it, then a poll at each tick until the run is stopped. What the node was
        asked and where the cursor ends is decided by what it answered. */
    method Run(ticks: nat) returns (ghost o: Outcome, ghost filled: Calls, ghost cursor: nat, ghost polls: seq<Poll>)
      requires Planned() && Valid() && acts == [] && node.calls == NO_CALLS
      modifies this`acts, store.db, node
      ensures Valid() && InStep()
      ensures o.from == StartFrom(startBlock, CursorOf(first)) && Explains(filled, o)
      ensures cursor == 0 <==> CursorOf(first) == 0 && Silent(node.chain, o.from, o.reached)
      ensures |polls| == ticks && node.calls == CallsAfterPolls(filled, cursor, polls)
      ensures CursorOf(store.db.table) == CursorAfterPolls(cursor, polls)
      ensures ticks > 0 ==>
        var p, c := polls[ticks - 1], CursorAfterPolls(cursor, polls[..ticks - 1]);
        p.answered && p.head.Some? && 0 < c < p.head.value ==>
          CursorOf(store.db.table) == p.head.value && HandledTo(p.head.value)
    {
      o := Backfill();
      filled, cursor, polls := node.calls, CursorOf(store.db.table), [];
      for tick := 0 to ticks
        invariant Valid() && InStep()
        invariant |polls| == tick && node.calls == CallsAfterPolls(filled, cursor, polls)
        invariant CursorOf(store.db.table) == CursorAfterPolls(cursor, polls)
      {
        ghost var poll := PollNewBlocks();
        PollsNext(filled, cursor, polls, poll);
        polls := polls + [poll];
      }
      if ticks > 0 { LastPollMeans(filled, cursor, polls); }
    }
  }
}
