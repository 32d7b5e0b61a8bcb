/**
  The JSON-like data the backend builds, hashes and stores: Python `None`,
  `bool`, `int`, `float`, `str` and `dict`. A dictionary is kept as the
  sequence of its key/value pairs in insertion order, as a Python `dict` is.
 */
module Records {
  import opened Wrappers

  datatype Value =
    | Null
    | Bool(b: bool)
    | Int(i: int)
    | Num(r: real)
    | Str(s: string)
    | Obj(fields: Dict)

  /** One key/value pair of a dictionary. */
  datatype Field = Field(key: string, val: Value)

  type Dict = seq<Field>

  function Keys(d: Dict): set<string>
  {
    set i | 0 <= i < |d| :: d[i].key
  }

  predicate DistinctKeys(d: Dict)
  {
    forall i, j :: 0 <= i < j < |d| ==> d[i].key != d[j].key
  }

  /** Every dictionary, at every depth, has distinct keys, as a Python `dict` always does. */
  predicate WellFormed(v: Value)
    decreases v
  {
    match v
    case Obj(d) => DistinctKeys(d) && forall i :: 0 <= i < |d| ==> WellFormed(d[i].val)
    case _ => true
  }

  /** `d[k]`, or None when `k` is not a key of `d`. */
  function Lookup(d: Dict, k: string): Option<Value>
  {
    if |d| == 0 then None
    else if d[0].key == k then Some(d[0].val)
    else Lookup(d[1..], k)
  }

  /** `d[k]` succeeds exactly for the keys of `d`, and returns a value stored under `k`. */
  lemma {:induction false} LookupSound(d: Dict, k: string)
    ensures Lookup(d, k).Some? <==> k in Keys(d)
    ensures Lookup(d, k).Some? ==> exists i :: 0 <= i < |d| && d[i] == Field(k, Lookup(d, k).value)
  {
    if |d| > 0 && d[0].key != k {
      LookupSound(d[1..], k);
      assert d == [d[0]] + d[1..];
      KeysCons(d[0], d[1..]);
      if Lookup(d, k).Some? {
        var i :| 0 <= i < |d[1..]| && d[1..][i] == Field(k, Lookup(d, k).value);
        assert d[i + 1] == d[1..][i];
      }
    } else if |d| > 0 {
      assert d[0].key in Keys(d);
    }
  }

  /** The first field with a key is the one `d[k]` finds. */
  lemma {:induction false} LookupFirst(d: Dict, i: nat)
    requires i < |d|
    requires forall j :: 0 <= j < i ==> d[j].key != d[i].key
    ensures Lookup(d, d[i].key) == Some(d[i].val)
    decreases i
  {
    if i > 0 {
      var t := d[1..];
      assert forall j :: 0 <= j < i - 1 ==> t[j] == d[j + 1];
      LookupFirst(t, i - 1);
    }
  }

  /** With distinct keys, `d[k]` is the value stored under `k`. */
  lemma LookupDistinct(d: Dict, i: nat)
    requires DistinctKeys(d) && i < |d|
    ensures Lookup(d, d[i].key) == Some(d[i].val)
  {
    LookupFirst(d, i);
  }

  lemma KeysCons(f: Field, d: Dict)
    ensures Keys([f] + d) == {f.key} + Keys(d)
  {
    var e := [f] + d;
    forall x | x in Keys(e) ensures x in {f.key} + Keys(d) {
      var i :| 0 <= i < |e| && e[i].key == x;
      if i > 0 { assert e[i] == d[i - 1]; }
    }
    forall x | x in Keys(d) ensures x in Keys(e) {
      var i :| 0 <= i < |d| && d[i].key == x;
      assert e[i + 1] == d[i];
    }
    assert e[0].key == f.key;
  }

  /**
    Two values are the same record: equal scalars, or dictionaries with the
    same keys whose values are the same record key by key, whatever the
    insertion order. Scalars compare by their JSON form, so `Int(1)` and
    `Num(1.0)` differ.
   */
  predicate SamePairs(a: Value, b: Value)
    decreases a
  {
    match a
    case Obj(da) =>
      && b.Obj?
      && Keys(da) == Keys(b.fields)
      && forall i, j :: 0 <= i < |da| && 0 <= j < |b.fields| && da[i].key == b.fields[j].key ==>
           SamePairs(da[i].val, b.fields[j].val)
    case _ => a == b
  }
}
