/** JSON values as the portal's Python code sees them after `resp.json()`:
    objects are ordered lists of fields, like Python dicts. */
module JsonValues {

  datatype Json =
    | JNull
    | JBool(b: bool)
    | JNum(n: int)
    | JStr(s: string)
    | JList(items: seq<Json>)
    | JObj(fields: Dict)

  datatype Field = Field(key: string, value: Json)

  type Dict = seq<Field>

  /** Python truthiness: None, False, 0, "", [] and {} are falsy. */
  predicate Truthy(j: Json) {
    match j
    case JNull => false
    case JBool(b) => b
    case JNum(n) => n != 0
    case JStr(s) => s != ""
    case JList(l) => l != []
    case JObj(f) => f != []
  }

  /** `k in d` */
  predicate HasKey(d: Dict, k: string) {
    exists i :: 0 <= i < |d| && d[i].key == k
  }

  /** Dict keys are pairwise distinct, as in a Python dict. */
  predicate UniqueKeys(d: Dict) {
    forall i, j :: 0 <= i < j < |d| ==> d[i].key != d[j].key
  }

  /** `d.get(k)`: the value stored under `k`, or None when `k` is absent. */
  function Get(d: Dict, k: string): (v: Json)
    ensures !HasKey(d, k) ==> v == JNull
    ensures HasKey(d, k) ==> exists i :: 0 <= i < |d| && d[i].key == k && d[i].value == v
  {
    if d == [] then JNull
    else if d[0].key == k then d[0].value
    else
      var v := Get(d[1..], k);
      assert HasKey(d, k) && d[0].key != k ==> HasKey(d[1..], k) by {
        if HasKey(d, k) && d[0].key != k {
          var i :| 0 <= i < |d| && d[i].key == k;
          assert d[1..][i - 1].key == k;
        }
      }
      assert HasKey(d[1..], k) ==> exists i :: 0 <= i < |d| && d[i].key == k && d[i].value == v by {
        if HasKey(d[1..], k) {
          var i :| 0 <= i < |d[1..]| && d[1..][i].key == k && d[1..][i].value == v;
          assert d[i + 1] == d[1..][i];
        }
      }
      v
  }

  /** `d.get(k, default)` */
  function GetOr(d: Dict, k: string, default: Json): (v: Json)
    ensures !HasKey(d, k) ==> v == default
    ensures HasKey(d, k) ==> v == Get(d, k)
  {
    if HasKey(d, k) then Get(d, k) else default
  }

  /** `d[k] = v`: overwrites the value in place when `k` is present, appends otherwise. */
  function Set(d: Dict, k: string, v: Json): (r: Dict)
    ensures HasKey(r, k)
  {
    if d == [] then
      var r := [Field(k, v)];
      assert r[0].key == k;
      r
    else if d[0].key == k then
      var r := [Field(k, v)] + d[1..];
      assert r[0].key == k;
      r
    else
      var rest := Set(d[1..], k, v);
      var r := [d[0]] + rest;
      assert r[1..] == rest;
      HasKeyTail(r, k);
      r
  }

  function Keys(d: Dict): (ks: seq<string>)
    ensures |ks| == |d|
    ensures forall i :: 0 <= i < |d| ==> ks[i] == d[i].key
  {
    if d == [] then [] else [d[0].key] + Keys(d[1..])
  }

  lemma {:induction false} GetSetSame(d: Dict, k: string, v: Json)
    ensures Get(Set(d, k, v), k) == v
  {
    if d != [] && d[0].key != k {
      GetSetSame(d[1..], k, v);
    }
  }

  lemma {:induction false} GetSetOther(d: Dict, k: string, v: Json, k': string)
    requires k' != k
    ensures Get(Set(d, k, v), k') == Get(d, k')
    ensures HasKey(Set(d, k, v), k') == HasKey(d, k')
  {
    if d == [] {
    } else if d[0].key == k {
      var r := Set(d, k, v);
      assert r[1..] == d[1..];
      HasKeyTail(r, k');
      HasKeyTail(d, k');
    } else {
      GetSetOther(d[1..], k, v, k');
      var r := Set(d, k, v);
      assert r[1..] == Set(d[1..], k, v);
      HasKeyTail(r, k');
      HasKeyTail(d, k');
    }
  }

  /** Assigning a key keeps the position of every existing key and adds `k` last when new. */
  lemma {:induction false} KeysSet(d: Dict, k: string, v: Json)
    ensures Keys(Set(d, k, v)) == if HasKey(d, k) then Keys(d) else Keys(d) + [k]
  {
    if d == [] {
    } else if d[0].key == k {
      assert HasKey(d, k);
      var r := Set(d, k, v);
      assert Keys(r) == [k] + Keys(d[1..]);
    } else {
      KeysSet(d[1..], k, v);
      HasKeyTail(d, k);
      var r := Set(d, k, v);
      assert r == [d[0]] + Set(d[1..], k, v);
      assert r[1..] == Set(d[1..], k, v);
      var tail := Keys(d[1..]);
      assert Keys(d) == [d[0].key] + tail;
      assert Keys(r) == [d[0].key] + Keys(r[1..]);
      if !HasKey(d, k) {
        AppendAssoc([d[0].key], tail, [k]);
      }
    }
  }

  lemma AppendAssoc<T>(a: seq<T>, b: seq<T>, c: seq<T>)
    ensures a + (b + c) == (a + b) + c
  {
  }

  lemma HasKeyTail(d: Dict, k: string)
    requires d != []
    ensures HasKey(d, k) == (d[0].key == k || HasKey(d[1..], k))
  {
    if HasKey(d, k) && d[0].key != k {
      var i :| 0 <= i < |d| && d[i].key == k;
      assert d[1..][i - 1].key == k;
    }
    if HasKey(d[1..], k) {
      var i :| 0 <= i < |d[1..]| && d[1..][i].key == k;
      assert d[i + 1].key == k;
    }
  }

  /** Appending a field: it answers only for a key the dict lacked. */
  lemma {:induction false} GetAppend(d: Dict, f: Field, k: string)
    ensures Get(d + [f], k) == if HasKey(d, k) then Get(d, k) else if f.key == k then f.value else JNull
    ensures HasKey(d + [f], k) <==> HasKey(d, k) || f.key == k
  {
    if d != [] {
      assert (d + [f])[1..] == d[1..] + [f];
      HasKeyTail(d, k);
      if d[0].key != k {
        GetAppend(d[1..], f, k);
      }
    }
  }

  /** Assignment keeps keys distinct. */
  lemma {:induction false} SetKeepsUniqueKeys(d: Dict, k: string, v: Json)
    requires UniqueKeys(d)
    ensures UniqueKeys(Set(d, k, v))
  {
    KeysSet(d, k, v);
    var r := Set(d, k, v);
    var ks := Keys(r);
    forall i, j | 0 <= i < j < |r| ensures r[i].key != r[j].key {
      if !HasKey(d, k) && j == |d| {
        assert ks[i] == Keys(d)[i];
        assert r[j].key == k;
        assert d[i].key != k;
      } else {
        assert ks[i] == Keys(d)[i] && ks[j] == Keys(d)[j];
      }
    }
  }
}
