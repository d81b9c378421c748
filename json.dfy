/**
 * Python values as they travel through the pipeline in dictionaries:
 * scraped payloads, ORM column values and the sheet cells.
 * A dictionary is an association list in insertion order, as in Python.
 */
module Json {
  import opened Wrappers

  datatype Value =
    | Null
    | Bool(b: bool)
    | Int(i: int)
    | Num(r: real)
    | Str(s: string)
    | Obj(entries: seq<(string, Value)>)

  type Dict = seq<(string, Value)>

  /** Python truthiness: None, False, 0, 0.0, "" and {} are false. */
  predicate Truthy(v: Value) {
    match v
    case Null => false
    case Bool(b) => b
    case Int(i) => i != 0
    case Num(r) => r != 0.0
    case Str(s) => s != ""
    case Obj(e) => e != []
  }

  /** Python's `a or b`. */
  function Or(a: Value, b: Value): (r: Value)
    ensures Truthy(a) ==> r == a
    ensures !Truthy(a) ==> r == b
  {
    if Truthy(a) then a else b
  }

  /** No key occurs twice, as in every Python dict. */
  ghost predicate UniqueKeys<V>(d: seq<(string, V)>) {
    forall i, j :: 0 <= i < j < |d| ==> d[i].0 != d[j].0
  }

  predicate HasKey<V>(d: seq<(string, V)>, k: string) {
    exists i | 0 <= i < |d| :: d[i].0 == k
  }

  /** `d.get(k)` as an Option: the value under the first entry with key `k`. */
  function Get<V>(d: seq<(string, V)>, k: string): Option<V> {
    if d == [] then None
    else if d[0].0 == k then Some(d[0].1)
    else Get(d[1..], k)
  }

  /** A key is found exactly when the dictionary has it, and what is found is stored under it. */
  lemma {:induction false} GetFound<V>(d: seq<(string, V)>, k: string)
    ensures Get(d, k).None? <==> !HasKey(d, k)
    ensures Get(d, k).Some? ==> exists i | 0 <= i < |d| :: d[i] == (k, Get(d, k).value)
  {
    if d != [] && d[0].0 != k {
      GetFound(d[1..], k);
      if HasKey(d, k) {
        var i :| 0 <= i < |d| && d[i].0 == k;
        assert d[1..][i - 1] == d[i];
      }
      if Get(d, k).Some? {
        var i :| 0 <= i < |d[1..]| && d[1..][i] == (k, Get(d, k).value);
        assert d[i + 1] == d[1..][i];
      }
    }
  }

  /** The value under `k` is the one at the first index holding `k`. */
  lemma {:induction false} GetAtFirst<V>(d: seq<(string, V)>, k: string, i: nat)
    requires i < |d| && d[i].0 == k
    requires forall j :: 0 <= j < i ==> d[j].0 != k
    ensures Get(d, k) == Some(d[i].1)
  {
    if i > 0 {
      GetAtFirst(d[1..], k, i - 1);
    }
  }

  /** The dictionary pairing each key with the value at the same position, in order. */
  function Entries(keys: seq<string>, values: seq<Value>): (d: Dict)
    requires |keys| == |values|
    ensures |d| == |keys|
  {
    if keys == [] then [] else [(keys[0], values[0])] + Entries(keys[1..], values[1..])
  }

  lemma {:induction false} EntriesAt(keys: seq<string>, values: seq<Value>, i: nat)
    requires |keys| == |values| && i < |keys|
    ensures Entries(keys, values)[i] == (keys[i], values[i])
  {
    if i > 0 {
      EntriesAt(keys[1..], values[1..], i - 1);
    }
  }

  /** With unique keys, every entry is what its key reads. */
  lemma GetUnique<V>(d: seq<(string, V)>, i: nat)
    requires UniqueKeys(d) && i < |d|
    ensures Get(d, d[i].0) == Some(d[i].1)
  {
    GetAtFirst(d, d[i].0, i);
  }

  /** Appending an entry under a new key: only that key reads differently. */
  lemma {:induction false} GetSnoc<V>(d: seq<(string, V)>, e: (string, V), k: string)
    requires forall i :: 0 <= i < |d| ==> d[i].0 != e.0
    ensures Get(d + [e], k) == if k == e.0 then Some(e.1) else Get(d, k)
    ensures HasKey(d + [e], k) <==> HasKey(d, k) || k == e.0
  {
    if d == [] {
      assert [] + [e] == [e];
    } else {
      assert (d + [e])[1..] == d[1..] + [e];
      GetSnoc(d[1..], e, k);
    }
  }

  /** `GetFound` for every key at once. */
  lemma GetFoundAll<V>(d: seq<(string, V)>)
    ensures forall k :: Get(d, k).None? <==> !HasKey(d, k)
  {
    forall k ensures Get(d, k).None? <==> !HasKey(d, k) {
      GetFound(d, k);
    }
  }

  /** `d.get(k, default)`. */
  function GetOr(d: Dict, k: string, default: Value): Value {
    Get(d, k).GetOr(default)
  }

  /** `d.get(k)`: a missing key reads as None. */
  function At(d: Dict, k: string): Value {
    GetOr(d, k, Null)
  }

  function Keys<V>(d: seq<(string, V)>): (ks: seq<string>)
    ensures |ks| == |d|
    ensures forall i :: 0 <= i < |d| ==> ks[i] == d[i].0
  {
    seq(|d|, i requires 0 <= i < |d| => d[i].0)
  }

  /** `d[k] = v`: afterwards `k` reads `v` and every other key reads as before. */
  function Put<V>(d: seq<(string, V)>, k: string, v: V): (r: seq<(string, V)>)
    ensures Get(r, k) == Some(v)
    ensures forall k' :: k' != k ==> Get(r, k') == Get(d, k')
    ensures forall e :: e in r ==> e in d || e == (k, v)
  {
    if d == [] then [(k, v)]
    else if d[0].0 == k then [(k, v)] + d[1..]
    else
      var t := Put(d[1..], k, v);
      assert ([d[0]] + t)[1..] == t;
      [d[0]] + t
  }

  /** A key not yet present is appended. */
  lemma {:induction false} PutNew<V>(d: seq<(string, V)>, k: string, v: V)
    requires !HasKey(d, k)
    ensures Put(d, k, v) == d + [(k, v)]
  {
    if d != [] {
      var t := d[1..];
      assert d[0].0 != k;
      assert !HasKey(t, k) by {
        forall i | 0 <= i < |t| ensures t[i].0 != k {
          assert t[i] == d[i + 1];
        }
      }
      PutNew(t, k, v);
      assert Put(d, k, v) == [d[0]] + (t + [(k, v)]);
      assert [d[0]] + (t + [(k, v)]) == d + [(k, v)];
    }
  }

  /** An existing key keeps its position: the length does not change. */
  lemma {:induction false} PutExisting<V>(d: seq<(string, V)>, k: string, v: V)
    requires HasKey(d, k)
    ensures |Put(d, k, v)| == |d|
  {
    if d[0].0 != k {
      assert HasKey(d[1..], k) by {
        var i :| 0 <= i < |d| && d[i].0 == k;
        assert d[1..][i - 1] == d[i];
      }
      PutExisting(d[1..], k, v);
    }
  }

  /** Assignment keeps a dictionary free of repeated keys. */
  lemma {:induction false} PutKeepsUniqueKeys<V>(d: seq<(string, V)>, k: string, v: V)
    requires UniqueKeys(d)
    ensures UniqueKeys(Put(d, k, v))
  {
    var r := Put(d, k, v);
    if d == [] {
    } else if d[0].0 == k {
      forall i, j | 0 <= i < j < |r| ensures r[i].0 != r[j].0 {
        assert r[j].0 == d[j].0;
        assert i > 0 ==> r[i].0 == d[i].0;
      }
    } else {
      var t := Put(d[1..], k, v);
      PutKeepsUniqueKeys(d[1..], k, v);
      assert r == [d[0]] + t;
      forall j | 0 <= j < |t| ensures t[j].0 != d[0].0 {
        assert t[j] in t;
        if t[j] != (k, v) {
          var i :| 0 <= i < |d[1..]| && d[1..][i] == t[j];
          assert d[i + 1] == t[j];
        }
      }
      forall i, j | 0 <= i < j < |r| ensures r[i].0 != r[j].0 {
        assert r[j] == t[j - 1];
        assert i > 0 ==> r[i] == t[i - 1];
      }
    }
  }
}
