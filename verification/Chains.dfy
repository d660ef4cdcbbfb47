/** The chain's logs: block ranges of them, and the stream of logs that are to be handled.

A log request answers exactly the logs of its range. The lemmas say how ranges follow one another:
handling range after range is handling the stream, nothing twice and nothing skipped.
*/
module Chains {
  import opened Keys
  import opened Rows
  import opened Logs

  predicate Before(l: Log, k: Log) { Earlier(l.block, l.index, k.block, k.index) }

  ghost predicate ChainOrder(logs: seq<Log>) {
    forall i, j {:trigger Before(logs[i], logs[j])} :: 0 <= i < j < |logs| ==> Before(logs[i], logs[j])
  }

  /** The logs of a block range: what a log request answers. */
  function Pick(chain: seq<Log>, lo: nat, hi: nat): seq<Log> {
    if chain == [] then []
    else
      var l, r := chain[|chain| - 1], Pick(chain[..|chain| - 1], lo, hi);
      if lo <= l.block <= hi then r + [l] else r
  }

  /** The logs that have topics: the others are not handled. */
  function Topical(logs: seq<Log>): seq<Log> {
    if logs == [] then []
    else
      var l, r := logs[|logs| - 1], Topical(logs[..|logs| - 1]);
      if l.sig != NoTopics then r + [l] else r
  }

  lemma {:induction false} PickMember(chain: seq<Log>, lo: nat, hi: nat, l: Log)
    ensures l in Pick(chain, lo, hi) <==> l in chain && lo <= l.block <= hi
  {
    if chain != [] {
      assert chain == chain[..|chain| - 1] + [chain[|chain| - 1]];
      PickMember(chain[..|chain| - 1], lo, hi, l);
    }
  }

  lemma {:induction false} TopicalMember(logs: seq<Log>, l: Log)
    ensures l in Topical(logs) <==> l in logs && l.sig != NoTopics
  {
    if logs != [] {
      assert logs == logs[..|logs| - 1] + [logs[|logs| - 1]];
      TopicalMember(logs[..|logs| - 1], l);
    }
  }

  lemma {:induction false} TopicalConcat(u: seq<Log>, v: seq<Log>)
    ensures Topical(u + v) == Topical(u) + Topical(v)
  {
    if v == [] {
      assert u + v == u;
    } else {
      assert (u + v)[..|u + v| - 1] == u + v[..|v| - 1];
      TopicalConcat(u, v[..|v| - 1]);
    }
  }

  lemma {:induction false} PickSorted(chain: seq<Log>, lo: nat, hi: nat)
    requires ChainOrder(chain)
    ensures ChainOrder(Pick(chain, lo, hi))
  {
    if chain != [] {
      PickSorted(chain[..|chain| - 1], lo, hi);
      var r := Pick(chain[..|chain| - 1], lo, hi);
      forall i | 0 <= i < |r| ensures Before(r[i], chain[|chain| - 1]) {
        assert r[i] in r;
        PickMember(chain[..|chain| - 1], lo, hi, r[i]);
      }
    }
  }

  lemma {:induction false} TopicalSorted(logs: seq<Log>)
    requires ChainOrder(logs)
    ensures ChainOrder(Topical(logs))
  {
    if logs != [] {
      TopicalSorted(logs[..|logs| - 1]);
      var r := Topical(logs[..|logs| - 1]);
      forall i | 0 <= i < |r| ensures Before(r[i], logs[|logs| - 1]) {
        assert r[i] in r;
        TopicalMember(logs[..|logs| - 1], r[i]);
      }
    }
  }

  lemma {:induction false} PickNone(chain: seq<Log>, lo: nat, hi: nat)
    requires forall l :: l in chain ==> l.block < lo
    ensures Pick(chain, lo, hi) == []
  {
    if chain != [] {
      assert chain[|chain| - 1] in chain;
      PickNone(chain[..|chain| - 1], lo, hi);
    }
  }

  /** Adjacent ranges answer to the whole range: nothing is fetched twice and nothing skipped. */
  lemma {:induction false} PickSplit(chain: seq<Log>, lo: nat, mid: nat, hi: nat)
    requires ChainOrder(chain) && lo <= mid + 1 && mid <= hi
    ensures Pick(chain, lo, hi) == Pick(chain, lo, mid) + Pick(chain, mid + 1, hi)
  {
    if chain != [] {
      var init, l := chain[..|chain| - 1], chain[|chain| - 1];
      PickSplit(init, lo, mid, hi);
      if l.block <= mid {
        forall k | k in init ensures k.block < mid + 1 {
          var i :| 0 <= i < |init| && init[i] == k;
          assert Before(chain[i], l);
        }
        PickNone(init, mid + 1, hi);
      }
    }
  }

  /** Everything from a block on that is to be handled. */
  function Stream(chain: seq<Log>, from: nat): seq<Log> { Topical(Pick(chain, from, TWO64)) }

  lemma {:induction false} RangeMember(chain: seq<Log>, lo: nat, hi: nat, l: Log)
    ensures l in Topical(Pick(chain, lo, hi)) <==> l in chain && lo <= l.block <= hi && l.sig != NoTopics
  {
    PickMember(chain, lo, hi, l);
    TopicalMember(Pick(chain, lo, hi), l);
  }

  /** Block numbers stay clear of the 64-bit limit. */
  predicate Numbered(l: Log) { l.block < TWO64 - 1 }

  /** In order and within range. Nothing is said here about whether a log can be handled. */
  ghost predicate GoodChain(chain: seq<Log>) {
    ChainOrder(chain) && forall l {:trigger Numbered(l)} :: l in chain ==> Numbered(l)
  }

  lemma StreamSorted(chain: seq<Log>, from: nat)
    requires GoodChain(chain)
    ensures ChainOrder(Stream(chain, from))
  {
    PickSorted(chain, from, TWO64);
    TopicalSorted(Pick(chain, from, TWO64));
  }

  lemma StreamFacts(chain: seq<Log>, from: nat)
    requires GoodChain(chain)
    ensures ChainOrder(Stream(chain, from))
    ensures forall l :: l in Stream(chain, from) <==> l in chain && l.block >= from && l.sig != NoTopics
  {
    StreamSorted(chain, from);
    forall l ensures l in Stream(chain, from) <==> l in chain && l.block >= from && l.sig != NoTopics {
      if l in chain { assert Numbered(l); }
      RangeMember(chain, from, TWO64, l);
    }
  }

  /** The stream from a block is a range followed by the stream after it. */
  lemma {:induction false} StreamSplit(chain: seq<Log>, from: nat, mid: nat)
    requires GoodChain(chain) && from <= mid + 1 && mid <= TWO64
    ensures Stream(chain, from) == Topical(Pick(chain, from, mid)) + Stream(chain, mid + 1)
  {
    PickSplit(chain, from, mid, TWO64);
    TopicalConcat(Pick(chain, from, mid), Pick(chain, mid + 1, TWO64));
  }

  lemma SplitAt(head: seq<Log>, rest: seq<Log>, b: nat, i: nat)
    requires i < |head + rest|
    requires (forall l :: l in head ==> l.block <= b) && (forall l :: l in rest ==> l.block > b)
    ensures i < |head| <==> (head + rest)[i].block <= b
  {
    if i < |head| { assert head[i] in head; } else { assert rest[i - |head|] in rest; }
  }

  lemma {:induction false} SplitByBlock(chain: seq<Log>, from: nat, b: nat, i: nat)
    requires GoodChain(chain) && from <= b + 1 && b < TWO64 && i < |Stream(chain, from)|
    ensures i < |Topical(Pick(chain, from, b))| <==> Stream(chain, from)[i].block <= b
  {
    StreamSplit(chain, from, b);
    var head, rest := Topical(Pick(chain, from, b)), Stream(chain, b + 1);
    forall l | l in head ensures l.block <= b { RangeMember(chain, from, b, l); }
    forall l | l in rest ensures l.block > b { RangeMember(chain, b + 1, TWO64, l); }
    SplitAt(head, rest, b, i);
  }

  /** If the first `d` logs of a stream are those up to a block, they are the topical logs of that
      range, and the rest is the stream after the block. */
  lemma {:induction false} UpToBlock(chain: seq<Log>, from: nat, d: nat, b: nat)
    requires GoodChain(chain) && from <= b + 1 && b < TWO64 && d <= |Stream(chain, from)|
    requires d > 0 ==> Stream(chain, from)[d - 1].block <= b
    requires d < |Stream(chain, from)| ==> Stream(chain, from)[d].block > b
    ensures Stream(chain, from)[..d] == Topical(Pick(chain, from, b))
    ensures Stream(chain, from)[d..] == Stream(chain, b + 1)
  {
    StreamSplit(chain, from, b);
    if d > 0 { SplitByBlock(chain, from, b, d - 1); }
    if d < |Stream(chain, from)| { SplitByBlock(chain, from, b, d); }
    CutWhere(Stream(chain, from), d, Topical(Pick(chain, from, b)), Stream(chain, b + 1));
  }

  lemma CutWhere(s: seq<Log>, d: nat, head: seq<Log>, rest: seq<Log>)
    requires s == head + rest && d <= |s| && (d > 0 ==> d - 1 < |head|) && (d < |s| ==> d >= |head|)
    ensures s[..d] == head && s[d..] == rest
  {
  }

  /** After `d` logs, everything before a block has been handled and nothing from it on. */
  ghost predicate ReadyAt(stream: seq<Log>, d: nat, block: nat) {
    && d <= |stream|
    && (d > 0 ==> stream[d - 1].block < block)
    && (d < |stream| ==> stream[d].block >= block)
  }

  lemma {:induction false} RangeShape(chain: seq<Log>, start: nat, d: nat, from: nat, to: nat)
    requires GoodChain(chain) && 0 < from && start <= from <= to < TWO64
    requires ReadyAt(Stream(chain, start), d, from)
    ensures Stream(chain, start)[d..] == Topical(Pick(chain, from, to)) + Stream(chain, to + 1)
  {
    UpToBlock(chain, start, d, from - 1);
    StreamSplit(chain, from, to);
  }

  lemma {:induction false} LastOfRange(chain: seq<Log>, from: nat, to: nat)
    ensures var p := Topical(Pick(chain, from, to)); |p| > 0 ==> p[|p| - 1].block <= to
  {
    var p := Topical(Pick(chain, from, to));
    if |p| > 0 {
      assert p[|p| - 1] in p;
      RangeMember(chain, from, to, p[|p| - 1]);
    }
  }

  lemma FirstOfRest(chain: seq<Log>, b: nat)
    ensures Stream(chain, b) != [] ==> Stream(chain, b)[0].block >= b
  {
    if Stream(chain, b) != [] {
      assert Stream(chain, b)[0] in Stream(chain, b);
      RangeMember(chain, b, TWO64, Stream(chain, b)[0]);
    }
  }

  lemma JoinReady(s: seq<Log>, d: nat, p: seq<Log>, rest: seq<Log>, from: nat, to: nat)
    requires ReadyAt(s, d, from) && s[d..] == p + rest && from <= to
    requires (|p| > 0 ==> p[|p| - 1].block <= to) && (rest != [] ==> rest[0].block > to)
    ensures d + |p| <= |s| && ReadyAt(s, d + |p|, to + 1)
    ensures forall i :: 0 <= i < |p| ==> s[d + i] == p[i]
  {
    assert forall i :: 0 <= i < |p| ==> s[d + i] == s[d..][i];
    if rest != [] { assert s[d + |p|] == s[d..][|p|]; }
  }

  /** Then the next logs of the stream are those of the range starting with the block. */
  lemma {:induction false} RangeNext(chain: seq<Log>, start: nat, d: nat, from: nat, to: nat, s: seq<Log>,
                                     p: seq<Log>)
    requires GoodChain(chain) && 0 < from && start <= from <= to < TWO64
    requires s == Stream(chain, start) && p == Topical(Pick(chain, from, to)) && ReadyAt(s, d, from)
    ensures d + |p| <= |s| && ReadyAt(s, d + |p|, to + 1)
    ensures forall i :: 0 <= i < |p| ==> s[d + i] == p[i]
  {
    var rest := Stream(chain, to + 1);
    RangeShape(chain, start, d, from, to);
    LastOfRange(chain, from, to);
    FirstOfRest(chain, to + 1);
    JoinReady(s, d, p, rest, from, to);
  }

  /** How many of the first `i` logs are to be handled. */
  function TopicalUpTo(logs: seq<Log>, i: nat): nat
    requires i <= |logs|
  {
    |Topical(logs[..i])|
  }

  lemma TopicalNext(logs: seq<Log>, i: nat)
    requires i < |logs|
    ensures TopicalUpTo(logs, i + 1) == TopicalUpTo(logs, i) + if logs[i].sig != NoTopics then 1 else 0
  {
    assert logs[..i + 1][..i] == logs[..i];
  }

  /** The topical logs hold each topical log at the place that counts those before it. */
  lemma {:induction false} TopicalAt(logs: seq<Log>, i: nat)
    requires i < |logs| && logs[i].sig != NoTopics
    ensures var t := TopicalUpTo(logs, i); t < |Topical(logs)| && Topical(logs)[t] == logs[i]
  {
    var head, tail := logs[..i + 1], logs[i + 1..];
    assert logs == head + tail;
    TopicalConcat(head, tail);
    assert head[..i] == logs[..i];
  }

  /** Every log can be handled without a failure at run time. */
  ghost predicate Handleable(chain: seq<Log>) {
    forall l {:trigger Readable(l)} :: l in chain ==> Readable(l)
  }
}
