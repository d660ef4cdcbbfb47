/** Byte-lexicographic order on keys, and sorted key lists.

The database keeps its rows in this order and its iterators walk it in both directions.
Everything the scans rely on is here: the order is total, the keys sharing a prefix form one
unbroken block, and that block ends exactly where the prefix with its last byte incremented
would start.
*/
module KeyOrder {

  type Bytes = string

  /** Strict lexicographic order, a proper prefix coming first. */
  predicate Less(a: Bytes, b: Bytes) {
    |b| != 0 && (|a| == 0 || a[0] < b[0] || (a[0] == b[0] && Less(a[1..], b[1..])))
  }

  lemma {:induction false} LessTotal(a: Bytes, b: Bytes)
    ensures a == b || Less(a, b) || Less(b, a)
  {
    if |a| != 0 && |b| != 0 && a[0] == b[0] {
      LessTotal(a[1..], b[1..]);
      assert a == [a[0]] + a[1..] && b == [b[0]] + b[1..];
    }
  }

  lemma {:induction false} LessAsymmetric(a: Bytes, b: Bytes)
    requires Less(a, b)
    ensures !Less(b, a) && a != b
  {
    if |a| != 0 && a[0] == b[0] {
      LessAsymmetric(a[1..], b[1..]);
    }
  }

  lemma {:induction false} LessTransitive(a: Bytes, b: Bytes, c: Bytes)
    requires Less(a, b) && Less(b, c)
    ensures Less(a, c)
  {
    if |a| != 0 && a[0] == b[0] == c[0] {
      LessTransitive(a[1..], b[1..], c[1..]);
    }
  }

  /** A common prefix does not influence the order. */
  lemma {:induction false} LessAfterPrefix(p: Bytes, a: Bytes, b: Bytes)
    ensures Less(p + a, p + b) <==> Less(a, b)
  {
    if p == [] {
      assert p + a == a && p + b == b;
    } else {
      LessAfterPrefix(p[1..], a, b);
      assert (p + a)[1..] == p[1..] + a && (p + b)[1..] == p[1..] + b;
    }
  }

  /** A key between a prefix and one of its extensions has the prefix itself. */
  lemma {:induction false} PrefixBlock(p: Bytes, x: Bytes, z: Bytes)
    requires p <= z && !Less(x, p) && !Less(z, x)
    ensures p <= x
  {
    if p != [] {
      LessTotal(p, x);
      LessTotal(x, z);
      assert x != [] && x[0] == p[0] == z[0];
      assert p[1..] <= z[1..];
      PrefixBlock(p[1..], x[1..], z[1..]);
      assert x == [x[0]] + x[1..];
    }
  }

  /** A prefix sorts no later than its extensions. */
  lemma {:induction false} PrefixFirst(p: Bytes, x: Bytes)
    requires p <= x
    ensures !Less(x, p)
  {
    if p != [] {
      PrefixFirst(p[1..], x[1..]);
    }
  }

  /** The prefix with its last byte incremented. */
  function PrefixEnd(p: Bytes): Bytes
    requires p != [] && p[|p| - 1] < '\U{D7FF}'
  {
    p[..|p| - 1] + [((p[|p| - 1] as int) + 1) as char]
  }

  /** The keys below `PrefixEnd(p)` are those with the prefix and those before all of them. */
  lemma {:induction false} BelowPrefixEnd(p: Bytes, x: Bytes)
    requires p != [] && p[|p| - 1] < '\U{D7FF}'
    ensures Less(x, PrefixEnd(p)) <==> p <= x || Less(x, p)
  {
    if |p| > 1 && x != [] {
      assert PrefixEnd(p)[1..] == PrefixEnd(p[1..]);
      assert p <= x <==> p[0] == x[0] && p[1..] <= x[1..];
      BelowPrefixEnd(p[1..], x[1..]);
    }
  }

  ghost predicate Ascending(s: seq<Bytes>) {
    forall i, j {:trigger Less(s[i], s[j])} :: 0 <= i < j < |s| ==> Less(s[i], s[j])
  }

  /** Two ascending lists with the same members are the same list. */
  lemma {:induction false} AscendingUnique(s: seq<Bytes>, t: seq<Bytes>)
    requires Ascending(s) && Ascending(t)
    requires forall x :: x in s <==> x in t
    ensures s == t
  {
    assert t != [] ==> t[0] in s;
    if s != [] {
      assert s[|s| - 1] in t && t != [];
      var m, n := |s| - 1, |t| - 1;
      assert t[n] in s;
      if s[m] != t[n] {
        LessAsymmetric(s[m], t[n]);
        assert false;
      }
      forall x ensures x in s[..m] <==> x in t[..n] {
        DropLast(s, x);
        DropLast(t, x);
      }
      AscendingUnique(s[..m], t[..n]);
      assert s == s[..m] + [s[m]] && t == t[..n] + [t[n]];
    }
  }

  /** The members of an ascending list without its last entry. */
  lemma DropLast(s: seq<Bytes>, x: Bytes)
    requires Ascending(s) && s != []
    ensures x in s[..|s| - 1] <==> x in s && x != s[|s| - 1]
  {
    if x in s[..|s| - 1] {
      var i :| 0 <= i < |s| - 1 && s[i] == x;
      LessAsymmetric(s[i], s[|s| - 1]);
    }
  }

  predicate IsMax(m: Bytes, keys: set<Bytes>) {
    m in keys && forall x {:trigger Less(x, m)} :: x in keys && x != m ==> Less(x, m)
  }

  lemma {:induction false} MaxExists(keys: set<Bytes>)
    requires keys != {}
    ensures exists m :: IsMax(m, keys)
  {
    var k :| k in keys;
    if keys == {k} {
      assert IsMax(k, keys);
    } else {
      var rest := keys - {k};
      assert keys == rest + {k};
      MaxExists(rest);
      var m :| IsMax(m, rest);
      LessTotal(m, k);
      if Less(k, m) {
        assert IsMax(m, keys);
      } else {
        forall x | x in keys && x != k ensures Less(x, k) {
          if x != m { LessTransitive(x, m, k); }
        }
        assert IsMax(k, keys);
      }
    }
  }

  lemma MaxUnique(m: Bytes, n: Bytes, keys: set<Bytes>)
    requires IsMax(m, keys) && IsMax(n, keys)
    ensures m == n
  {
    if m != n { LessAsymmetric(m, n); }
  }

  function MaxKey(keys: set<Bytes>): (m: Bytes)
    requires keys != {}
    ensures IsMax(m, keys)
  {
    MaxExists(keys);
    assert forall x, y :: IsMax(x, keys) && IsMax(y, keys) ==> x == y by {
      forall x, y | IsMax(x, keys) && IsMax(y, keys) ensures x == y { MaxUnique(x, y, keys); }
    }
    var m :| m in keys && IsMax(m, keys);
    m
  }

  /** The keys of a set in ascending order: the order in which an iterator meets them. */
  function Sorted(keys: set<Bytes>): (s: seq<Bytes>)
    ensures Ascending(s)
    ensures forall x :: x in s <==> x in keys
    ensures |s| == |keys|
  {
    if keys == {} then []
    else
      var m := MaxKey(keys);
      Sorted(keys - {m}) + [m]
  }

  /** How many keys of an ascending list lie below a target: where a seek lands. */
  function Below(keys: seq<Bytes>, target: Bytes): (n: nat)
    ensures n <= |keys|
  {
    if keys != [] && Less(keys[0], target) then 1 + Below(keys[1..], target) else 0
  }

  /** The count separates the keys below the target from the others. */
  lemma {:induction false} BelowSplits(keys: seq<Bytes>, target: Bytes, i: nat)
    requires Ascending(keys) && i < |keys|
    ensures i < Below(keys, target) <==> Less(keys[i], target)
  {
    if i != 0 {
      if Less(keys[i], target) { LessTransitive(keys[0], keys[i], target); }
      BelowSplits(keys[1..], target, i - 1);
    }
  }
}
