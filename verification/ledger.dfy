/** Amounts keyed by user id that remember the order in which each key was
    first written: a Python dict filled with `setdefault` and `+=`, or a
    JavaScript record filled with `record[k] = (record[k] || 0) + x`. */
module Ledger {
  import opened Domain

  datatype Ledger = Ledger(keys: seq<int>, amount: map<int, real>)

  /** The keys are listed once each, and they are exactly the keys of the map. */
  predicate Valid(l: Ledger) {
    NoDups(l.keys) &&
    (forall k :: k in l.amount ==> k in l.keys) &&
    (forall k :: k in l.keys ==> k in l.amount)
  }

  const Empty := Ledger([], map[])

  /** Sum of `m` over `keys`, in key order. */
  function SumOver(keys: seq<int>, m: map<int, real>): real
    requires forall k :: k in keys ==> k in m
  {
    if keys == [] then 0.0
    else
      var last := keys[|keys| - 1];
      assert last in keys;
      SumOver(keys[..|keys| - 1], m) + m[last]
  }

  /** `sum(d.values())` */
  function Total(l: Ledger): real
    requires Valid(l)
  {
    SumOver(l.keys, l.amount)
  }

  /** The amount of `k`, 0 when absent. */
  function Get(l: Ledger, k: int): real {
    if k in l.amount then l.amount[k] else 0.0
  }

  /** `d.setdefault(k, 0.0); d[k] += x`: a new key goes to the end of the
      order, every other amount is unchanged, and the total grows by `x`. */
  function Add(l: Ledger, k: int, x: real): (r: Ledger)
    requires Valid(l)
    ensures Valid(r)
    ensures forall j :: Get(r, j) == Get(l, j) + (if j == k then x else 0.0)
    ensures k in r.amount && forall j :: j != k ==> (j in r.amount <==> j in l.amount)
    ensures r.keys == if k in l.amount then l.keys else l.keys + [k]
    ensures Total(r) == Total(l) + x
  {
    if k in l.amount then
      SumOverBump(l.keys, l.amount, k, x);
      Ledger(l.keys, l.amount[k := l.amount[k] + x])
    else
      SumOverIgnores(l.keys, l.amount, k, x);
      assert (l.keys + [k])[..|l.keys|] == l.keys;
      Ledger(l.keys + [k], l.amount[k := x])
  }

  /** Writing a key outside `keys` does not change the sum over `keys`. */
  lemma {:induction false} SumOverIgnores(keys: seq<int>, m: map<int, real>, k: int, v: real)
    requires forall j :: j in keys ==> j in m
    requires k !in keys
    ensures SumOver(keys, m[k := v]) == SumOver(keys, m)
  {
    if keys != [] {
      SumOverIgnores(keys[..|keys| - 1], m, k, v);
    }
  }

  /** Adding `x` to one listed key adds `x` to the sum. */
  lemma {:induction false} SumOverBump(keys: seq<int>, m: map<int, real>, k: int, x: real)
    requires forall j :: j in keys ==> j in m
    requires NoDups(keys) && k in keys
    ensures SumOver(keys, m[k := m[k] + x]) == SumOver(keys, m) + x
  {
    var p := keys[..|keys| - 1];
    if keys[|keys| - 1] == k {
      forall i | 0 <= i < |p|
        ensures p[i] != k
      {
        assert p[i] == keys[i];
      }
      SumOverIgnores(p, m, k, m[k] + x);
    } else {
      assert k in p by {
        var i :| 0 <= i < |keys| && keys[i] == k;
        assert i < |keys| - 1;
        assert p[i] == k;
      }
      SumOverBump(p, m, k, x);
    }
  }

  /** The sum is linear: scaling every summand scales the sum. */
  lemma {:induction false} SumOverScaled(keys: seq<int>, m: map<int, real>, c: real, scaled: map<int, real>)
    requires forall j :: j in keys ==> j in m && j in scaled && scaled[j] == c * m[j]
    ensures SumOver(keys, scaled) == c * SumOver(keys, m)
  {
    if keys != [] {
      var last := keys[|keys| - 1];
      assert last in keys;
      var p := keys[..|keys| - 1];
      SumOverScaled(p, m, c, scaled);
      assert c * (SumOver(p, m) + m[last]) == c * SumOver(p, m) + c * m[last];
    }
  }

  /** The sum is additive: adding two families pointwise adds their sums. */
  lemma {:induction false} SumOverAdded(keys: seq<int>, a: map<int, real>, b: map<int, real>, s: map<int, real>)
    requires forall j :: j in keys ==> j in a && j in b && j in s && s[j] == a[j] + b[j]
    ensures SumOver(keys, s) == SumOver(keys, a) + SumOver(keys, b)
  {
    if keys != [] {
      var last := keys[|keys| - 1];
      assert last in keys;
      SumOverAdded(keys[..|keys| - 1], a, b, s);
    }
  }

  /** Summing a family that is 0 on every key gives 0. */
  lemma {:induction false} SumOverZero(keys: seq<int>, m: map<int, real>)
    requires forall j :: j in keys ==> j in m && m[j] == 0.0
    ensures SumOver(keys, m) == 0.0
  {
    if keys != [] {
      var last := keys[|keys| - 1];
      assert last in keys;
      SumOverZero(keys[..|keys| - 1], m);
    }
  }
}
