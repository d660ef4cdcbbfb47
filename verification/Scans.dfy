/** Prefix scans over the sorted rows.

Both scan shapes of the store are here once: forwards from the start of a prefix, and backwards
from its end keeping the most recent rows. Each is proved to return what filtering the whole
database in key order would return.
*/
module Scans {
  import opened KeyOrder
  import opened Rows
  import opened Database

  /** The rows that `sel` selects among the given keys, in the order of the keys. */
  function Hits<E>(rows: map<Bytes, Value>, ks: seq<Bytes>, sel: (Bytes, Value) -> Option<E>): seq<E>
    requires forall k :: k in ks ==> k in rows
  {
    if ks == [] then []
    else
      var k := ks[|ks| - 1];
      Hits(rows, ks[..|ks| - 1], sel) +
      match sel(k, rows[k]) case Some(e) => [e] case None => []
  }

  lemma {:induction false} HitsConcat<E>(rows: map<Bytes, Value>, a: seq<Bytes>, b: seq<Bytes>, sel: (Bytes,
                                         Value) -> Option<E>)
    requires forall k :: k in a + b ==> k in rows
    ensures forall k :: k in a ==> k in rows
    ensures forall k :: k in b ==> k in rows
    ensures Hits(rows, a + b, sel) == Hits(rows, a, sel) + Hits(rows, b, sel)
  {
    assert forall k :: k in a ==> k in a + b;
    assert forall k :: k in b ==> k in a + b;
    if b == [] {
      assert a + b == a;
    } else {
      assert (a + b)[..|a + b| - 1] == a + b[..|b| - 1];
      HitsConcat(rows, a, b[..|b| - 1], sel);
    }
  }

  /** Something is returned exactly when some key among those scanned yields it. */
  lemma {:induction false} HitsMembers<E>(rows: map<Bytes, Value>, ks: seq<Bytes>, sel: (Bytes,
                                          Value) -> Option<E>, e: E)
    requires forall k :: k in ks ==> k in rows
    ensures e in Hits(rows, ks, sel) <==> exists k :: k in ks && sel(k, rows[k]) == Some(e)
  {
    if ks != [] {
      var m := |ks| - 1;
      assert ks == ks[..m] + [ks[m]];
      HitsMembers(rows, ks[..m], sel, e);
    }
  }

  /** When every scanned row is selected, nothing is dropped. */
  lemma {:induction false} HitsAll<E>(rows: map<Bytes, Value>, ks: seq<Bytes>, sel: (Bytes,
                                      Value) -> Option<E>)
    requires forall k :: k in ks ==> k in rows && sel(k, rows[k]).Some?
    ensures |Hits(rows, ks, sel)| == |ks|
    ensures forall i :: 0 <= i < |ks| ==> sel(ks[i], rows[ks[i]]) == Some(Hits(rows, ks, sel)[i])
  {
    if ks != [] { HitsAll(rows, ks[..|ks| - 1], sel); }
  }

  /** Selected rows come out in an order of their own when the selection is monotone. */
  lemma {:induction false} HitsAscending<E>(rows: map<Bytes, Value>, ks: seq<Bytes>, sel: (Bytes,
                                            Value) -> Option<E>, key: E -> Bytes)
    requires Ascending(ks) && forall k :: k in ks ==> k in rows
    requires forall k, l | k in ks && l in ks && Less(k, l) ::
      sel(k, rows[k]).Some? && sel(l, rows[l]).Some? ==>
      Less(key(sel(k, rows[k]).value), key(sel(l, rows[l]).value))
    ensures var h := Hits(rows, ks, sel);
      forall i, j :: 0 <= i < j < |h| ==> Less(key(h[i]), key(h[j]))
  {
    if ks != [] {
      var m := |ks| - 1;
      SliceAscending(ks, 0, m);
      assert ks[0..m] == ks[..m];
      HitsAscending(rows, ks[..m], sel, key);
      var h := Hits(rows, ks[..m], sel);
      if sel(ks[m], rows[ks[m]]).Some? {
        forall i | 0 <= i < |h| ensures Less(key(h[i]), key(sel(ks[m], rows[ks[m]]).value)) {
          HitsMembers(rows, ks[..m], sel, h[i]);
          var k :| k in ks[..m] && sel(k, rows[k]) == Some(h[i]);
          var x :| 0 <= x < m && ks[x] == k;
          assert Less(ks[x], ks[m]);
        }
      }
    }
  }

  lemma SliceAscending(keys: seq<Bytes>, lo: nat, hi: nat)
    requires lo <= hi <= |keys| && Ascending(keys)
    ensures Ascending(keys[lo..hi])
  {
    forall i, j | 0 <= i < j < hi - lo ensures Less(keys[lo..hi][i], keys[lo..hi][j]) {
      assert Less(keys[lo + i], keys[lo + j]);
    }
  }

  /** The keys with a prefix, in key order. */
  function PrefixKeys(rows: map<Bytes, Value>, p: Bytes): (ks: seq<Bytes>)
    ensures Ascending(ks)
    ensures forall k :: k in ks <==> k in rows && p <= k
  {
    Sorted(set k | k in rows && p <= k)
  }

  /** How many of `n` things a limit lets through. */
  function Allowance(limit: int, n: nat): (m: nat)
    ensures m <= n && (m < n ==> m == if limit < 0 then 0 else limit) && (m == n ==> n == 0 || n <= limit)
  {
    if limit <= 0 then 0 else if limit >= n then n else limit
  }

  /** The end of a list, and its beginning, as far as the limit goes. */
  function LastN<E>(limit: int, s: seq<E>): (r: seq<E>)
    ensures |r| == Allowance(limit, |s|) && r == s[|s| - |r|..]
  {
    if limit <= 0 then [] else if limit >= |s| then s else s[|s| - limit..]
  }

  function FirstN<E>(limit: int, s: seq<E>): (r: seq<E>)
    ensures |r| == Allowance(limit, |s|) && r == s[..|r|]
  {
    if limit <= 0 then [] else if limit >= |s| then s else s[..limit]
  }

  function AtMost<E>(limit: Option<int>, s: seq<E>): seq<E> {
    if limit.Some? then FirstN(limit.value, s) else s
  }

  function Reversed<E>(s: seq<E>): (r: seq<E>)
    ensures |r| == |s|
    ensures forall i :: 0 <= i < |s| ==> r[i] == s[|s| - 1 - i]
  {
    seq(|s|, i requires 0 <= i < |s| => s[|s| - 1 - i])
  }

  ghost predicate IsPrefix(p: Bytes) { p != [] && p[|p| - 1] == ':' }

  /** A key has the prefix exactly when it lies in the block from the prefix to its end. */
  lemma {:induction false} InBlock(keys: seq<Bytes>, p: Bytes, i: nat)
    requires Ascending(keys) && IsPrefix(p) && i < |keys|
    ensures Below(keys, p) <= i < Below(keys, PrefixEnd(p)) <==> p <= keys[i]
    ensures i < Below(keys, p) ==> i < Below(keys, PrefixEnd(p))
  {
    BelowSplits(keys, p, i);
    BelowSplits(keys, PrefixEnd(p), i);
    BelowPrefixEnd(p, keys[i]);
    if p <= keys[i] { PrefixFirst(p, keys[i]); }
  }

  lemma {:induction false} BlockBounds(keys: seq<Bytes>, p: Bytes)
    requires Ascending(keys) && IsPrefix(p)
    ensures Below(keys, p) <= Below(keys, PrefixEnd(p))
  {
    var hi := Below(keys, PrefixEnd(p));
    if hi < |keys| { InBlock(keys, p, hi); }
  }

  /** The positions from `lo` to `hi` are those of the keys with the prefix. */
  ghost predicate IsBlock(keys: seq<Bytes>, p: Bytes, lo: nat, hi: nat) {
    && lo <= hi <= |keys|
    && forall i :: 0 <= i < |keys| ==> (lo <= i < hi <==> p <= keys[i])
  }

  lemma {:induction false} BlockFound(keys: seq<Bytes>, p: Bytes)
    requires Ascending(keys) && IsPrefix(p)
    ensures IsBlock(keys, p, Below(keys, p), Below(keys, PrefixEnd(p)))
  {
    BlockBounds(keys, p);
    forall i | 0 <= i < |keys|
      ensures Below(keys, p) <= i < Below(keys, PrefixEnd(p)) <==> p <= keys[i]
    {
      InBlock(keys, p, i);
    }
  }

  lemma BlockMembers(keys: seq<Bytes>, p: Bytes, lo: nat, hi: nat, k: Bytes)
    requires IsBlock(keys, p, lo, hi)
    ensures k in keys[lo..hi] <==> k in keys && p <= k
  {
    if k in keys && p <= k {
      var i :| 0 <= i < |keys| && keys[i] == k;
      assert keys[lo..hi][i - lo] == k;
    }
  }

  /** The keys with a prefix are that block. */
  lemma BlockKeys(rows: map<Bytes, Value>, p: Bytes, lo: nat, hi: nat)
    requires IsBlock(Sorted(rows.Keys), p, lo, hi)
    ensures Sorted(rows.Keys)[lo..hi] == PrefixKeys(rows, p)
  {
    var keys := Sorted(rows.Keys);
    SliceAscending(keys, lo, hi);
    forall k ensures k in keys[lo..hi] <==> k in PrefixKeys(rows, p) {
      BlockMembers(keys, p, lo, hi, k);
    }
    AscendingUnique(keys[lo..hi], PrefixKeys(rows, p));
  }

  /** Reverses a list the way the scans do, exchanging the ends and moving inwards. */
  method ReverseInPlace<E>(s: seq<E>) returns (r: seq<E>)
    ensures r == Reversed(s)
  {
    r := s;
    var i, j := 0, |s| - 1;
    while i < j
      invariant 0 <= i <= |s| && i + j == |s| - 1 && i - 1 <= j
      invariant |r| == |s|
      invariant forall k :: 0 <= k < i || j < k < |s| ==> r[k] == s[|s| - 1 - k]
      invariant forall k :: i <= k <= j ==> r[k] == s[k]
    {
      r := r[i := r[j]][j := r[i]];
      i, j := i + 1, j - 1;
    }
    assert forall k :: 0 <= k < |s| ==> r[k] == s[|s| - 1 - k];
  }

  /** What the part `keys[i..j]` of the scanned keys yields. */
  ghost function Part<E>(rows: map<Bytes, Value>, keys: seq<Bytes>, i: nat, j: nat,
                         sel: (Bytes, Value) -> Option<E>): seq<E>
    requires i <= j <= |keys| && forall k :: k in keys ==> k in rows
  {
    Hits(rows, keys[i..j], sel)
  }

  lemma PartSplit<E>(rows: map<Bytes, Value>, keys: seq<Bytes>, i: nat, m: nat, j: nat,
                     sel: (Bytes, Value) -> Option<E>)
    requires i <= m <= j <= |keys| && forall k :: k in keys ==> k in rows
    ensures Part(rows, keys, i, j, sel) == Part(rows, keys, i, m, sel) + Part(rows, keys, m, j, sel)
  {
    assert keys[i..j] == keys[i..m] + keys[m..j];
    HitsConcat(rows, keys[i..m], keys[m..j], sel);
  }

  lemma PartOne<E>(rows: map<Bytes, Value>, keys: seq<Bytes>, i: nat,
                   sel: (Bytes, Value) -> Option<E>)
    requires i < |keys| && forall k :: k in keys ==> k in rows
    ensures keys[i] in rows
    ensures Part(rows, keys, i, i + 1, sel) ==
      match sel(keys[i], rows[keys[i]]) case Some(e) => [e] case None => []
  {
    assert keys[i..i + 1] == [keys[i]];
    assert [keys[i]][..0] == [];
    assert Hits(rows, [keys[i]][..0], sel) == [];
  }

  lemma LastPart<E>(rows: map<Bytes, Value>, keys: seq<Bytes>, lo: nat, m: nat, hi: nat,
                    sel: (Bytes, Value) -> Option<E>, limit: int)
    requires lo <= m <= hi <= |keys| && forall k :: k in keys ==> k in rows
    requires |Part(rows, keys, m, hi, sel)| == 0 || |Part(rows, keys, m, hi, sel)| <= limit
    requires m == lo || |Part(rows, keys, m, hi, sel)| >= limit
    ensures Part(rows, keys, m, hi, sel) == LastN(limit, Part(rows, keys, lo, hi, sel))
  {
    PartSplit(rows, keys, lo, m, hi, sel);
    if m == lo { assert keys[lo..m] == []; }
  }

  lemma FirstPart<E>(rows: map<Bytes, Value>, keys: seq<Bytes>, lo: nat, m: nat, hi: nat,
                     sel: (Bytes, Value) -> Option<E>, limit: Option<int>)
    requires lo <= m <= hi <= |keys| && forall k :: k in keys ==> k in rows
    requires var got := |Part(rows, keys, lo, m, sel)|; got == 0 || limit.None? || got <= limit.value
    requires m == hi || (limit.Some? && |Part(rows, keys, lo, m, sel)| >= limit.value)
    ensures Part(rows, keys, lo, m, sel) == AtMost(limit, Part(rows, keys, lo, hi, sel))
  {
    PartSplit(rows, keys, lo, m, hi, sel);
    if m == hi { assert keys[m..hi] == []; }
  }

  lemma ReversedSnoc<E>(s: seq<E>, e: E)
    ensures Reversed(s + [e]) == [e] + Reversed(s)
  {
  }

  lemma BackStep<E>(rows: map<Bytes, Value>, keys: seq<Bytes>, i: nat, hi: nat,
                    sel: (Bytes, Value) -> Option<E>, events: seq<E>)
    requires i < hi <= |keys| && forall k :: k in keys ==> k in rows
    requires Reversed(events) == Part(rows, keys, i + 1, hi, sel)
    ensures keys[i] in rows
    ensures match sel(keys[i], rows[keys[i]])
      case Some(e) => Reversed(events + [e]) == Part(rows, keys, i, hi, sel)
      case None => Reversed(events) == Part(rows, keys, i, hi, sel)
  {
    PartSplit(rows, keys, i, i + 1, hi, sel);
    PartOne(rows, keys, i, sel);
    match sel(keys[i], rows[keys[i]])
    case Some(e) => ReversedSnoc(events, e);
    case None =>
  }

  /** Walks back from the end of a prefix range until the limit or the start of the range. */
  method CollectBack<E>(it: Iterator, prefix: Bytes, limit: int, sel: (Bytes, Value) -> Option<E>,
                        ghost lo: nat, ghost hi: nat)
    returns (r: seq<E>)
    requires it.Valid() && IsBlock(it.keys, prefix, lo, hi) && it.pos == hi - 1
    modifies it
    ensures r == LastN(limit, Part(it.rows, it.keys, lo, hi, sel))
  {
    ghost var rows, keys := it.rows, it.keys;
    var events: seq<E> := [];
    while it.IsValid() && |events| < limit && prefix <= it.CurrentKey()
      invariant it.Valid() && lo - 1 <= it.pos < hi
      invariant |events| == 0 || |events| <= limit
      invariant Reversed(events) == Part(rows, keys, it.pos + 1, hi, sel)
      decreases it.pos
    {
      BackStep(rows, keys, it.pos, hi, sel, events);
      match sel(it.CurrentKey(), it.CurrentValue()) {
        case Some(e) => events := events + [e];
        case None =>
      }
      it.Prev();
    }
    assert it.pos == lo - 1 || |events| >= limit;
    r := ReverseInPlace(events);
    LastPart(rows, keys, lo, it.pos + 1, hi, sel, limit);
  }

  /** The last `limit` selected rows of a prefix, oldest first. */
  method ScanBack<E>(it: Iterator, prefix: Bytes, limit: int, sel: (Bytes, Value) -> Option<E>)
    returns (r: seq<E>)
    requires it.Valid() && it.Complete() && IsPrefix(prefix)
    modifies it
    ensures r == LastN(limit, Hits(it.rows, PrefixKeys(it.rows, prefix), sel))
  {
    it.Seek(PrefixEnd(prefix));
    ghost var lo, hi := Below(it.keys, prefix), it.pos;
    BlockFound(it.keys, prefix);
    BlockKeys(it.rows, prefix, lo, hi);
    if it.IsValid() {
      it.Prev();
    } else {
      it.SeekToLast();
    }
    r := CollectBack(it, prefix, limit, sel, lo, hi);
  }

  lemma ForwardStep<E>(rows: map<Bytes, Value>, keys: seq<Bytes>, lo: nat, i: nat,
                       sel: (Bytes, Value) -> Option<E>)
    requires lo <= i < |keys| && forall k :: k in keys ==> k in rows
    ensures keys[i] in rows
    ensures Part(rows, keys, lo, i + 1, sel) == Part(rows, keys, lo, i, sel) +
      match sel(keys[i], rows[keys[i]]) case Some(e) => [e] case None => []
  {
    PartSplit(rows, keys, lo, i, i + 1, sel);
    PartOne(rows, keys, i, sel);
  }

  /** Walks forward over a prefix range until the limit or its end. */
  method CollectForward<E>(it: Iterator, prefix: Bytes, limit: Option<int>,
                           sel: (Bytes, Value) -> Option<E>, ghost lo: nat, ghost hi: nat)
    returns (r: seq<E>)
    requires it.Valid() && IsBlock(it.keys, prefix, lo, hi) && it.pos == lo
    modifies it
    ensures r == AtMost(limit, Part(it.rows, it.keys, lo, hi, sel))
  {
    ghost var rows, keys := it.rows, it.keys;
    r := [];
    while it.IsValid() && prefix <= it.CurrentKey() && (limit.None? || |r| < limit.value)
      invariant it.Valid() && lo <= it.pos <= hi
      invariant r == [] || limit.None? || |r| <= limit.value
      invariant r == Part(rows, keys, lo, it.pos, sel)
      decreases |keys| - it.pos
    {
      ForwardStep(rows, keys, lo, it.pos, sel);
      match sel(it.CurrentKey(), it.CurrentValue()) {
        case Some(e) => r := r + [e];
        case None =>
      }
      it.Next();
    }
    FirstPart(rows, keys, lo, it.pos, hi, sel, limit);
  }

  /** The selected rows of a prefix in key order, up to a limit when there is one. */
  method ScanForward<E>(it: Iterator, prefix: Bytes, limit: Option<int>, sel: (Bytes, Value) -> Option<E>)
    returns (r: seq<E>)
    requires it.Valid() && it.Complete() && IsPrefix(prefix)
    modifies it
    ensures r == AtMost(limit, Hits(it.rows, PrefixKeys(it.rows, prefix), sel))
  {
    it.Seek(prefix);
    ghost var lo, hi := it.pos, Below(it.keys, PrefixEnd(prefix));
    BlockFound(it.keys, prefix);
    BlockKeys(it.rows, prefix, lo, hi);
    r := CollectForward(it, prefix, limit, sel, lo, hi);
  }
}
