/**
  Record sealing (backend/crypto.py): the key-sorted digest `generate_hash`
  and the timestamp stamp `timestamp_log`.
 */
module Crypto {
  import opened Wrappers
  import opened Records

  /** A hex digest as `hexdigest()` returns it. */
  type Digest = string

  const TimestampKey: string := "timestamp"

  // ---------------------------------------------------------------------
  // Python's ordering of `str` keys
  // ---------------------------------------------------------------------

  /** `a < b` on Python strings: code-point lexicographic order, a proper prefix first. */
  predicate Below(a: string, b: string)
    decreases |a|
  {
    if |a| == 0 then |b| > 0
    else |b| > 0 && (a[0] < b[0] || (a[0] == b[0] && Below(a[1..], b[1..])))
  }

  lemma {:induction false} BelowIrreflexive(a: string)
    ensures !Below(a, a)
    decreases |a|
  {
    if |a| > 0 {
      BelowIrreflexive(a[1..]);
    }
  }

  lemma {:induction false} BelowTransitive(a: string, b: string, c: string)
    requires Below(a, b) && Below(b, c)
    ensures Below(a, c)
    decreases |a|
  {
    if |a| > 0 && a[0] == b[0] && b[0] == c[0] {
      BelowTransitive(a[1..], b[1..], c[1..]);
    }
  }

  lemma {:induction false} BelowTotal(a: string, b: string)
    requires a != b
    ensures Below(a, b) || Below(b, a)
    decreases |a|
  {
    if |a| > 0 && |b| > 0 && a[0] == b[0] {
      assert a == [a[0]] + a[1..] && b == [b[0]] + b[1..];
      BelowTotal(a[1..], b[1..]);
    }
  }

  lemma BelowAsymmetric(a: string, b: string)
    requires Below(a, b)
    ensures !Below(b, a)
  {
    if Below(b, a) {
      BelowTransitive(a, b, a);
      BelowIrreflexive(a);
    }
  }

  // ---------------------------------------------------------------------
  // Sorting a dictionary's items by key (`sort_keys=True`)
  // ---------------------------------------------------------------------

  predicate SortedByKey(d: Dict)
  {
    forall i, j :: 0 <= i < j < |d| ==> Below(d[i].key, d[j].key)
  }

  /** Inserts `f` before the first field whose key is not below `f`'s. */
  function Insert(f: Field, d: Dict): Dict
  {
    if |d| == 0 then [f]
    else if Below(f.key, d[0].key) then [f] + d
    else [d[0]] + Insert(f, d[1..])
  }

  /** The items of `d` in ascending key order. */
  function SortByKey(d: Dict): Dict
  {
    if |d| == 0 then []
    else Insert(d[0], SortByKey(d[1..]))
  }

  lemma {:induction false} InsertPermutes(f: Field, d: Dict)
    ensures multiset(Insert(f, d)) == multiset(d) + multiset{f}
    decreases |d|
  {
    if |d| > 0 && !Below(f.key, d[0].key) {
      InsertPermutes(f, d[1..]);
      assert d == [d[0]] + d[1..];
    }
  }

  /** Sorting only reorders: the sorted items are the same items, with the same multiplicities. */
  lemma {:induction false} SortByKeyPermutes(d: Dict)
    ensures multiset(SortByKey(d)) == multiset(d)
    decreases |d|
  {
    if |d| > 0 {
      SortByKeyPermutes(d[1..]);
      InsertPermutes(d[0], SortByKey(d[1..]));
      assert d == [d[0]] + d[1..];
    }
  }

  lemma {:induction false} InsertSorted(f: Field, d: Dict)
    requires SortedByKey(d)
    requires forall i :: 0 <= i < |d| ==> d[i].key != f.key
    ensures SortedByKey(Insert(f, d))
    decreases |d|
  {
    if |d| == 0 {
    } else if Below(f.key, d[0].key) {
      var r := [f] + d;
      forall i, j | 0 <= i < j < |r| ensures Below(r[i].key, r[j].key) {
        if i == 0 && j > 1 {
          BelowTransitive(f.key, d[0].key, d[j - 1].key);
        }
      }
    } else {
      BelowTotal(f.key, d[0].key);
      var t := d[1..];
      InsertSorted(f, t);
      var it := Insert(f, t);
      var r := [d[0]] + it;
      assert forall k :: 0 <= k < |t| ==> t[k] == d[k + 1];
      InsertAbove(f, t, d[0].key);
      forall i, j | 0 <= i < j < |r| ensures Below(r[i].key, r[j].key) {
        assert r[j] == it[j - 1];
        if i > 0 {
          assert r[i] == it[i - 1];
        }
      }
    }
  }

  /** Inserting a field above `lo` into fields above `lo` keeps every field above `lo`. */
  lemma {:induction false} InsertAbove(f: Field, d: Dict, lo: string)
    requires Below(lo, f.key)
    requires forall i :: 0 <= i < |d| ==> Below(lo, d[i].key)
    ensures forall i :: 0 <= i < |Insert(f, d)| ==> Below(lo, Insert(f, d)[i].key)
    decreases |d|
  {
    if |d| > 0 && !Below(f.key, d[0].key) {
      var t := d[1..];
      InsertAbove(f, t, lo);
      var r := Insert(f, d);
      assert r == [d[0]] + Insert(f, t);
      forall i | 0 < i < |r| ensures Below(lo, r[i].key) {
        assert r[i] == Insert(f, t)[i - 1];
      }
    }
  }

  lemma {:induction false} SortByKeySorted(d: Dict)
    requires DistinctKeys(d)
    ensures SortedByKey(SortByKey(d))
    decreases |d|
  {
    if |d| > 0 {
      var t := d[1..];
      assert DistinctKeys(t) by {
        forall i, j | 0 <= i < j < |t| ensures t[i].key != t[j].key {
          assert t[i] == d[i + 1] && t[j] == d[j + 1];
        }
      }
      SortByKeySorted(t);
      var st := SortByKey(t);
      forall i | 0 <= i < |st| ensures st[i].key != d[0].key {
        SortByKeyPermutes(t);
        assert st[i] in multiset(t);
        var k :| 0 <= k < |t| && t[k] == st[i];
        assert d[k + 1] == st[i];
      }
      InsertSorted(d[0], st);
    }
  }

  /** Two key-sorted dictionaries with the same items start with the same item. */
  lemma SortedSameHead(a: Dict, b: Dict)
    requires SortedByKey(a) && SortedByKey(b)
    requires forall x :: x in a <==> x in b
    requires |a| > 0
    ensures |b| > 0 && a[0] == b[0]
  {
    assert a[0] in b;
    assert b[0] in a;
    var i :| 0 <= i < |b| && b[i] == a[0];
    var j :| 0 <= j < |a| && a[j] == b[0];
    if i != 0 && j != 0 {
      assert Below(b[0].key, a[0].key) && Below(a[0].key, b[0].key);
      BelowAsymmetric(b[0].key, a[0].key);
    } else if i != 0 {
      assert Below(b[0].key, b[0].key);
      BelowIrreflexive(b[0].key);
    } else if j != 0 {
      assert Below(a[0].key, a[0].key);
      BelowIrreflexive(a[0].key);
    }
  }

  lemma SortedTail(a: Dict)
    requires SortedByKey(a) && |a| > 0
    ensures SortedByKey(a[1..])
    ensures forall x :: x in a[1..] <==> x in a && x != a[0]
  {
    var t := a[1..];
    forall i, j | 0 <= i < j < |t| ensures Below(t[i].key, t[j].key) {
      assert t[i] == a[i + 1] && t[j] == a[j + 1];
    }
    forall x | x in t ensures x != a[0] {
      var i :| 0 <= i < |t| && t[i] == x;
      assert a[i + 1] == x;
      if x == a[0] {
        BelowIrreflexive(x.key);
      }
    }
    assert a == [a[0]] + t;
  }

  lemma SameMembersSameEmptiness(a: Dict, b: Dict)
    requires forall x :: x in a <==> x in b
    ensures |a| == 0 <==> |b| == 0
  {
    if |a| > 0 { assert a[0] in b; }
    if |b| > 0 { assert b[0] in a; }
  }

  /** A key-sorted dictionary is determined by its items: sorting has only one possible result. */
  lemma {:induction false} SortedUnique(a: Dict, b: Dict)
    requires SortedByKey(a) && SortedByKey(b)
    requires forall x :: x in a <==> x in b
    ensures a == b
    decreases |a|
  {
    SameMembersSameEmptiness(a, b);
    if |a| > 0 {
      SortedSameHead(a, b);
      SortedTail(a);
      SortedTail(b);
      SortedUnique(a[1..], b[1..]);
      assert a == [a[0]] + a[1..] && b == [b[0]] + b[1..];
    }
  }

  // ---------------------------------------------------------------------
  // Canonical records and `generate_hash`
  // ---------------------------------------------------------------------

  /** The record `json.dumps(_, sort_keys=True)` serialises: every dictionary, at every depth, in key order. */
  function Canon(v: Value): Value
    decreases v, 1
  {
    match v
    case Obj(d) => Obj(SortByKey(CanonItems(v)))
    case _ => v
  }

  /** The items of dictionary `v` with each value made canonical, still in insertion order. */
  function CanonItems(v: Value): (r: Dict)
    requires v.Obj?
    ensures |r| == |v.fields|
    ensures forall i :: 0 <= i < |r| ==> r[i] == Field(v.fields[i].key, Canon(v.fields[i].val))
    decreases v, 0
  {
    var d := v.fields;
    seq(|d|, i requires 0 <= i < |d| => Field(d[i].key, Canon(d[i].val)))
  }

  /** Making a record canonical keeps each dictionary's keys distinct and sorts them. */
  lemma CanonSorted(v: Value)
    requires v.Obj? && WellFormed(v)
    ensures DistinctKeys(CanonItems(v))
    ensures SortedByKey(Canon(v).fields)
    ensures forall x :: x in Canon(v).fields <==> x in CanonItems(v)
  {
    var items := CanonItems(v);
    SortByKeySorted(items);
    var r := SortByKey(items);
    forall x ensures x in r <==> x in items {
      SortByKeyPermutes(items);
      assert x in r <==> x in multiset(r);
    }
  }

  /**
    Sorting only reorders: two records with the same key/value pairs, in any
    insertion order and at any depth, have the same canonical form.
   */
  lemma {:induction false} CanonRespectsSamePairs(a: Value, b: Value)
    requires WellFormed(a) && WellFormed(b) && SamePairs(a, b)
    ensures Canon(a) == Canon(b)
    decreases a
  {
    if a.Obj? {
      var da, db := a.fields, b.fields;
      var ia, ib := CanonItems(a), CanonItems(b);
      CanonSorted(a);
      CanonSorted(b);
      forall x | x in ia ensures x in ib {
        var i :| 0 <= i < |ia| && ia[i] == x;
        assert da[i].key in Keys(db);
        var j :| 0 <= j < |db| && db[j].key == da[i].key;
        CanonRespectsSamePairs(da[i].val, db[j].val);
        assert ib[j] == x;
      }
      forall x | x in ib ensures x in ia {
        var j :| 0 <= j < |ib| && ib[j] == x;
        assert db[j].key in Keys(da);
        var i :| 0 <= i < |da| && da[i].key == db[j].key;
        CanonRespectsSamePairs(da[i].val, db[j].val);
        assert ia[i] == x;
      }
      SortedUnique(Canon(a).fields, Canon(b).fields);
    }
  }

  /** Dictionaries whose items map, position by position and key-preserving, onto the same items have the same keys. */
  lemma SameItemsSameKeys(da: Dict, db: Dict, ia: Dict, ib: Dict)
    requires |ia| == |da| && |ib| == |db|
    requires forall i :: 0 <= i < |da| ==> ia[i].key == da[i].key
    requires forall j :: 0 <= j < |db| ==> ib[j].key == db[j].key
    requires forall x :: x in ia <==> x in ib
    ensures Keys(da) == Keys(db)
  {
    forall k | k in Keys(da) ensures k in Keys(db) {
      var i :| 0 <= i < |da| && da[i].key == k;
      assert ia[i] in ib;
      var j :| 0 <= j < |ib| && ib[j] == ia[i];
      assert db[j].key == k;
    }
    forall k | k in Keys(db) ensures k in Keys(da) {
      var j :| 0 <= j < |db| && db[j].key == k;
      assert ib[j] in ia;
      var i :| 0 <= i < |ia| && ia[i] == ib[j];
      assert da[i].key == k;
    }
  }

  /** In two dictionaries with the same items and distinct keys, the items under one key are the same item. */
  lemma MatchedItem(ia: Dict, ib: Dict, i: nat, j: nat)
    requires DistinctKeys(ib) && (forall x :: x in ia <==> x in ib)
    requires i < |ia| && j < |ib| && ia[i].key == ib[j].key
    ensures ia[i] == ib[j]
  {
    assert ia[i] in ib;
    var j' :| 0 <= j' < |ib| && ib[j'] == ia[i];
    assert ib[j'].key == ib[j].key;
  }

  /** The canonical form loses nothing: records with the same canonical form have the same key/value pairs. */
  lemma {:induction false} CanonReflectsSamePairs(a: Value, b: Value)
    requires WellFormed(a) && WellFormed(b) && Canon(a) == Canon(b)
    ensures SamePairs(a, b)
    decreases a
  {
    if a.Obj? {
      var da, db := a.fields, b.fields;
      var ia, ib := CanonItems(a), CanonItems(b);
      CanonSorted(a);
      CanonSorted(b);
      assert forall x :: x in ia <==> x in ib;
      SameItemsSameKeys(da, db, ia, ib);
      forall i, j | 0 <= i < |da| && 0 <= j < |db| && da[i].key == db[j].key
        ensures SamePairs(da[i].val, db[j].val)
      {
        MatchedItem(ia, ib, i, j);
        CanonReflectsSamePairs(da[i].val, db[j].val);
      }
    }
  }

  /** `generate_hash`: SHA-256 of the key-sorted JSON text. `sha` stands for SHA-256 of a record's JSON text; it sees only the canonical record. */
  function GenerateHash(sha: Value -> Digest, data: Dict): Digest
  {
    sha(Canon(Obj(data)))
  }

  /**
    `generate_hash` does not depend on insertion order: dictionaries with the
    same key/value pairs, at every depth, get the same digest.
   */
  lemma GenerateHashIgnoresOrder(sha: Value -> Digest, d1: Dict, d2: Dict)
    requires WellFormed(Obj(d1)) && WellFormed(Obj(d2))
    requires SamePairs(Obj(d1), Obj(d2))
    ensures GenerateHash(sha, d1) == GenerateHash(sha, d2)
  {
    CanonRespectsSamePairs(Obj(d1), Obj(d2));
  }

  /**
    The hashed record commits to the whole dictionary: two dictionaries hand
    SHA-256 the same record exactly when they have the same key/value pairs.
   */
  lemma HashedRecordIffSamePairs(d1: Dict, d2: Dict)
    requires WellFormed(Obj(d1)) && WellFormed(Obj(d2))
    ensures Canon(Obj(d1)) == Canon(Obj(d2)) <==> SamePairs(Obj(d1), Obj(d2))
  {
    if SamePairs(Obj(d1), Obj(d2)) {
      CanonRespectsSamePairs(Obj(d1), Obj(d2));
    }
    if Canon(Obj(d1)) == Canon(Obj(d2)) {
      CanonReflectsSamePairs(Obj(d1), Obj(d2));
    }
  }

  /** `timestamp_log`: `data['timestamp'] = clock`, overwriting in place or appending at the end. */
  function TimestampLog(data: Dict, clock: string): (r: Dict)
    ensures Keys(r) == Keys(data) + {TimestampKey}
    ensures Lookup(r, TimestampKey) == Some(Str(clock))
    ensures forall k :: k != TimestampKey ==> Lookup(r, k) == Lookup(data, k)
    ensures |r| == if TimestampKey in Keys(data) then |data| else |data| + 1
    ensures forall i :: 0 <= i < |data| ==> r[i].key == data[i].key
    ensures DistinctKeys(data) ==> DistinctKeys(r)
  {
    AssignLookup(data, TimestampKey, Str(clock));
    AssignDistinct(data, TimestampKey, Str(clock));
    Assign(data, TimestampKey, Str(clock))
  }

  /** Stamping keeps a record well formed: the new value is a string and every other value was already there. */
  lemma TimestampLogWellFormed(data: Dict, clock: string)
    requires WellFormed(Obj(data))
    ensures WellFormed(Obj(TimestampLog(data, clock)))
  {
    var r := TimestampLog(data, clock);
    forall i | 0 <= i < |r| ensures WellFormed(r[i].val) {
      var k := r[i].key;
      LookupDistinct(r, i);
      if k != TimestampKey {
        assert Lookup(data, k) == Some(r[i].val);
        LookupSound(data, k);
        var j :| 0 <= j < |data| && data[j] == Field(k, r[i].val);
      }
    }
  }

  /** `d[k] = v` on a Python dict: replaces the value of an existing key in place, else appends. */
  function Assign(d: Dict, k: string, v: Value): (r: Dict)
    ensures Keys(r) == Keys(d) + {k}
    ensures |r| == if k in Keys(d) then |d| else |d| + 1
    ensures forall i :: 0 <= i < |d| ==> r[i].key == d[i].key
    ensures k !in Keys(d) ==> r == d + [Field(k, v)]
  {
    if |d| == 0 then
      KeysCons(Field(k, v), []);
      [Field(k, v)]
    else if d[0].key == k then
      KeysCons(d[0], d[1..]);
      KeysCons(Field(k, v), d[1..]);
      assert d == [d[0]] + d[1..];
      [Field(k, v)] + d[1..]
    else
      var t := Assign(d[1..], k, v);
      KeysCons(d[0], d[1..]);
      KeysCons(d[0], t);
      assert d == [d[0]] + d[1..];
      [d[0]] + t
  }

  lemma {:induction false} AssignLookup(d: Dict, k: string, v: Value)
    ensures Lookup(Assign(d, k, v), k) == Some(v)
    ensures forall k' :: k' != k ==> Lookup(Assign(d, k, v), k') == Lookup(d, k')
    decreases |d|
  {
    if |d| > 0 && d[0].key != k {
      AssignLookup(d[1..], k, v);
    }
  }

  lemma AssignDistinct(d: Dict, k: string, v: Value)
    ensures DistinctKeys(d) ==> DistinctKeys(Assign(d, k, v))
  {
    var r := Assign(d, k, v);
    if DistinctKeys(d) && k !in Keys(d) {
      forall i | 0 <= i < |d| ensures r[i].key != r[|d|].key {
        assert d[i].key in Keys(d);
      }
    }
  }
}
