/**
 * JSON values as Python's `json` module and `dict` see them. Objects keep
 * their key order, as Python dictionaries do, so a dictionary is an ordered
 * sequence of (key, value) pairs; a well-formed one has unique keys.
 */
module Json {
  import opened Wrappers

  /** Numbers are exact reals: they stand for both Python ints and floats. */
  datatype Value =
    | Null
    | Bool(b: bool)
    | Num(n: real)
    | Str(s: string)
    | Arr(items: seq<Value>)
    | Obj(fields: seq<(string, Value)>)

  type Dict = seq<(string, Value)>

  /** The keys of `d`, in insertion order (`list(d.keys())`). */
  function Keys(d: Dict): (ks: seq<string>)
    ensures |ks| == |d|
    ensures forall i :: 0 <= i < |d| ==> ks[i] == d[i].0
  {
    if |d| == 0 then [] else [d[0].0] + Keys(d[1..])
  }

  predicate UniqueKeys(d: Dict) {
    forall i, j :: 0 <= i < j < |d| ==> d[i].0 != d[j].0
  }

  /** `d.get(k)`: the value stored under the first occurrence of `k` (see `GetFirst`). */
  function Get(d: Dict, k: string): Option<Value> {
    if |d| == 0 then None
    else if d[0].0 == k then Some(d[0].1)
    else Get(d[1..], k)
  }

  /** `d.get(k)` finds a value exactly when `k` is a key of `d`. */
  lemma {:induction false} GetFound(d: Dict, k: string)
    ensures Get(d, k).None? <==> k !in Keys(d)
  {
    if |d| > 0 {
      GetFound(d[1..], k);
      assert Keys(d) == [d[0].0] + Keys(d[1..]);
    }
  }

  /** A key no entry carries finds nothing. */
  lemma {:induction false} GetAbsent(d: Dict, k: string)
    requires forall j :: 0 <= j < |d| ==> d[j].0 != k
    ensures Get(d, k) == None
  {
    if |d| > 0 {
      assert forall j :: 0 <= j < |d| - 1 ==> d[1..][j] == d[j + 1];
      GetAbsent(d[1..], k);
    }
  }

  /** The first occurrence of `k` decides what `d.get(k)` returns. */
  lemma {:induction false} GetFirst(d: Dict, i: nat, k: string)
    requires i < |d| && d[i].0 == k
    requires forall j :: 0 <= j < i ==> d[j].0 != k
    ensures Get(d, k) == Some(d[i].1)
  {
    if i > 0 {
      GetFirst(d[1..], i - 1, k);
    }
  }

  /** In a dictionary with unique keys, every key finds its own entry. */
  lemma UniqueGet(d: Dict, i: nat)
    requires UniqueKeys(d) && i < |d|
    ensures Get(d, d[i].0) == Some(d[i].1)
  {
    GetFirst(d, i, d[i].0);
  }

  /** `d.get(k)` where a Python `None` is serialised as JSON `null`. */
  function GetOrNull(d: Dict, k: string): Value {
    Get(d, k).GetOr(Null)
  }

  /** `d[k] = v`: replaces the value in place when `k` is present, else appends. */
  function Put(d: Dict, k: string, v: Value): (r: Dict)
    ensures k in Keys(d) ==> Keys(r) == Keys(d)
    ensures k !in Keys(d) ==> r == d + [(k, v)]
  {
    if |d| == 0 then [(k, v)]
    else if d[0].0 == k then [(k, v)] + d[1..]
    else
      var r := [d[0]] + Put(d[1..], k, v);
      assert Keys(r) == [d[0].0] + Keys(Put(d[1..], k, v));
      r
  }

  /** After `d[k] = v`, `d.get(k)` is `v`. */
  lemma {:induction false} PutThenGet(d: Dict, k: string, v: Value)
    ensures Get(Put(d, k, v), k) == Some(v)
  {
    if |d| > 0 && d[0].0 != k {
      PutThenGet(d[1..], k, v);
      assert Put(d, k, v) == [d[0]] + Put(d[1..], k, v);
      assert ([d[0]] + Put(d[1..], k, v))[1..] == Put(d[1..], k, v);
    }
  }

  /** `d[k] = v` leaves every other key's value as it was. */
  lemma {:induction false} PutKeepsOthers(d: Dict, k: string, v: Value, k': string)
    requires k' != k
    ensures Get(Put(d, k, v), k') == Get(d, k')
  {
    if |d| > 0 && d[0].0 != k {
      PutKeepsOthers(d[1..], k, v, k');
      assert ([d[0]] + Put(d[1..], k, v))[1..] == Put(d[1..], k, v);
    } else if |d| > 0 {
      assert ([(k, v)] + d[1..])[1..] == d[1..];
    }
  }

  /** Python truthiness of a decoded JSON value. */
  predicate Truthy(v: Value) {
    match v
    case Null => false
    case Bool(b) => b
    case Num(n) => n != 0.0
    case Str(s) => |s| > 0
    case Arr(a) => |a| > 0
    case Obj(f) => |f| > 0
  }

  /**
   * `[x for x in v]` where each `x` must itself be a dictionary (its `.get` is
   * called next). Iterating a list yields its elements, a string its
   * characters and a dictionary its keys; anything but a dictionary element
   * then fails, so only lists of objects, the empty string and the empty
   * object iterate without error. Anything else is not iterable at all.
   */
  function DictItems(v: Value): (r: Result<seq<Dict>, string>)
    ensures r.Success? <==>
      (v.Arr? && forall i :: 0 <= i < |v.items| ==> v.items[i].Obj?) || v == Str("") || v == Obj([])
    ensures r.Success? && v.Arr? ==>
      |r.value| == |v.items| && forall i :: 0 <= i < |v.items| ==> v.items[i] == Obj(r.value[i])
    ensures r.Success? && !v.Arr? ==> r.value == []
  {
    match v
    case Arr(items) =>
      if forall i :: 0 <= i < |items| ==> items[i].Obj? then
        Success(seq(|items|, i requires 0 <= i < |items| => items[i].fields))
      else Failure("AttributeError: element has no attribute 'get'")
    case Str(s) => if s == "" then Success([]) else Failure("AttributeError: 'str' object has no attribute 'get'")
    case Obj(f) => if f == [] then Success([]) else Failure("AttributeError: 'str' object has no attribute 'get'")
    case _ => Failure("TypeError: object is not iterable")
  }

  lemma {:induction false} PutKeepsKeysUnique(d: Dict, k: string, v: Value)
    requires UniqueKeys(d)
    ensures UniqueKeys(Put(d, k, v))
  {
    var r := Put(d, k, v);
    if k in Keys(d) {
      assert Keys(r) == Keys(d);
      forall i, j | 0 <= i < j < |r| ensures r[i].0 != r[j].0 {
        assert r[i].0 == Keys(r)[i] == Keys(d)[i] == d[i].0;
        assert r[j].0 == Keys(r)[j] == Keys(d)[j] == d[j].0;
      }
    } else {
      assert r == d + [(k, v)];
      forall i, j | 0 <= i < j < |r| ensures r[i].0 != r[j].0 {
        if j == |d| {
          assert r[i].0 == Keys(d)[i];
        }
      }
    }
  }

  /** Storing the same value under a key twice is the same as storing it once. */
  lemma {:induction false} PutIdempotent(d: Dict, k: string, v: Value)
    ensures Put(Put(d, k, v), k, v) == Put(d, k, v)
  {
    if |d| > 0 && d[0].0 != k {
      PutIdempotent(d[1..], k, v);
      assert ([d[0]] + Put(d[1..], k, v))[1..] == Put(d[1..], k, v);
    } else if |d| > 0 {
      assert ([(k, v)] + d[1..])[1..] == d[1..];
    }
  }
}
