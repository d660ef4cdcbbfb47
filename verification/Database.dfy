/** The ordered key-value store and its iterator.

`Db` keeps rows under their text keys, as the storage engine does. Beside them it carries, for
proofs only, the same rows named by fields (`table`) and every write so far (`history`). An
`Iterator` walks a snapshot of the keys in byte order.
*/
module Database {
  import opened KeyOrder
  import opened Keys
  import opened Rows

  /** `rows` holds exactly the rows of `tb`, each under its text key. */
  ghost predicate Encoded(tb: Table, rows: map<Bytes, Value>) {
    && (forall k {:trigger k.Encode()} :: k in tb ==> k.Encode() in rows && rows[k.Encode()] == tb[k])
    && (forall s :: s in rows ==> exists k :: k in tb && k.Encode() == s)
  }

  class Db {
    var rows: map<Bytes, Value>
    ghost var table: Table
    ghost var history: seq<Write>
    ghost const base: Table  // what the database held when it was opened

    ghost predicate Valid()
      reads this
    {
      && Encoded(table, rows)
      && Typed(table) && AllFit(history)
      && table == ApplyAll(base, history)
    }

    /** Opens a database that already holds some rows. */
    constructor (image: map<Bytes, Value>, ghost content: Table)
      requires Encoded(content, image) && Typed(content)
      ensures Valid() && table == base == content && rows == image && history == []
    {
      rows, table, history, base := image, content, [], content;
    }

    ghost method Log(w: Write)
      requires w.Fit() && AllFit(history)
      requires table == Apply(ApplyAll(base, history), w)
      modifies this`history
      ensures history == old(history) + [w] && AllFit(history)
      ensures table == ApplyAll(base, history)
    {
      history := history + [w];
      assert history[..|history| - 1] == old(history);
    }

    method Put(key: Key, val: Value)
      requires Valid() && Fits(key, val)
      modifies this
      ensures Valid()
      ensures table == old(table)[key := val]
      ensures history == old(history) + [Write.Put(key, val)]
    {
      forall k | k in table && k.Encode() == key.Encode() ensures k == key {
        EncodeInjective(k, key);
      }
      ghost var before := table;
      rows := rows[key.Encode() := val];
      table := table[key := val];
      assert Encoded(table, rows) by {
        assert key in table;
        forall s | s in rows ensures exists k :: k in table && k.Encode() == s {
          if s != key.Encode() {
            var k :| k in before && k.Encode() == s;
            assert k in table;
          }
        }
      }
      Log(Write.Put(key, val));
    }

    method Delete(key: Key)
      requires Valid()
      modifies this
      ensures Valid()
      ensures table == old(table) - {key}
      ensures history == old(history) + [Write.Delete(key)]
    {
      forall k | k in table && k.Encode() == key.Encode() ensures k == key {
        EncodeInjective(k, key);
      }
      ghost var before := table;
      rows := rows - {key.Encode()};
      table := table - {key};
      assert Encoded(table, rows) by {
        forall s | s in rows ensures exists k :: k in table && k.Encode() == s {
          var k :| k in before && k.Encode() == s;
          assert k in table;
        }
      }
      Log(Write.Delete(key));
    }

    method Get(key: Key) returns (r: Option<Value>)
      requires Valid()
      ensures r == if key in table then Some(table[key]) else None
    {
      var k := key.Encode();
      if k in rows {
        r := Some(rows[k]);
        ghost var l :| l in table && l.Encode() == k;
        EncodeInjective(key, l);
      } else {
        r := None;
      }
    }

    method NewIterator() returns (it: Iterator)
      ensures fresh(it) && it.Valid() && it.Complete() && it.rows == rows
    {
      it := new Iterator(rows);
    }
  }

  /** A cursor over the sorted keys of a snapshot; off either end it is not valid. */
  class Iterator {
    const rows: map<Bytes, Value>
    const keys: seq<Bytes>
    var pos: int

    ghost predicate Valid()
      reads this
    {
      -1 <= pos <= |keys| && forall k :: k in keys ==> k in rows
    }

    /** The snapshot's keys, all of them and in order. */
    ghost predicate Complete() { keys == Sorted(rows.Keys) }

    constructor (snapshot: map<Bytes, Value>)
      ensures Valid() && Complete() && rows == snapshot
    {
      rows := snapshot;
      keys := Sorted(snapshot.Keys);
      pos := -1;
    }

    predicate IsValid()
      requires Valid()
      reads this
    {
      0 <= pos < |keys|
    }

    /** Moves to the first key that is not below the target. */
    method Seek(target: Bytes)
      requires Valid()
      modifies this`pos
      ensures Valid() && pos == Below(keys, target)
    {
      pos := 0;
      while pos < |keys| && Less(keys[pos], target)
        invariant 0 <= pos <= |keys|
        invariant pos + Below(keys[pos..], target) == Below(keys, target)
      {
        assert keys[pos..][1..] == keys[pos + 1..];
        pos := pos + 1;
      }
    }

    method SeekToLast()
      requires Valid()
      modifies this`pos
      ensures Valid() && pos == |keys| - 1
    {
      pos := |keys| - 1;
    }

    method Next()
      requires Valid() && IsValid()
      modifies this`pos
      ensures Valid() && pos == old(pos) + 1
    {
      pos := pos + 1;
    }

    method Prev()
      requires Valid() && IsValid()
      modifies this`pos
      ensures Valid() && pos == old(pos) - 1
    {
      pos := pos - 1;
    }

    function CurrentKey(): Bytes
      requires Valid() && IsValid()
      reads this
    {
      keys[pos]
    }

    function CurrentValue(): Value
      requires Valid() && IsValid()
      reads this
    {
      rows[keys[pos]]
    }
  }
}
