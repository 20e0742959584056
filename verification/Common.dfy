/** Small shared vocabulary: optional values, results, and sums over listed keys. */
module Common {
  datatype Option<+T> = None | Some(value: T) {
    function GetOr(default: T): T {
      match this
      case Some(v) => v
      case None => default
    }
  }

  datatype Result<+T, +E> = Ok(value: T) | Err(error: E)

  /** The 8-bit unsigned integers that count attempts. */
  type u8 = x: int | 0 <= x < 256

  function Lookup(m: map<string, nat>, key: string): nat {
    if key in m then m[key] else 0
  }

  /** The sum of `m` over the listed keys; absent keys count zero. */
  function Total(keys: seq<string>, m: map<string, nat>): nat {
    if keys == [] then 0 else Lookup(m, keys[0]) + Total(keys[1..], m)
  }

  ghost predicate Distinct<T>(s: seq<T>) {
    forall i, j :: 0 <= i < j < |s| ==> s[i] != s[j]
  }

  /** `part` is some of `all`, in the same order. */
  ghost predicate InOrderOf<T>(part: seq<T>, all: seq<T>) {
    exists at: seq<nat> :: Places(at, part, all)
  }

  ghost predicate Places<T>(at: seq<nat>, part: seq<T>, all: seq<T>) {
    && |at| == |part|
    && (forall i, j :: 0 <= i < j < |at| ==> at[i] < at[j])
    && (forall i :: 0 <= i < |at| ==> at[i] < |all| && all[at[i]] == part[i])
  }

  lemma NothingInOrder<T>(all: seq<T>)
    ensures InOrderOf([], all)
  {
    assert Places([], [], all);
  }

  lemma MoreInOrder<T>(part: seq<T>, all: seq<T>, x: T)
    requires InOrderOf(part, all)
    ensures InOrderOf(part, all + [x]) && InOrderOf(part + [x], all + [x])
  {
    var at: seq<nat> :| Places(at, part, all);
    assert Places(at, part, all + [x]);
    assert Places(at + [|all|], part + [x], all + [x]);
  }

  /** Maps that agree on the listed keys have the same total. */
  lemma {:induction false} TotalAgree(keys: seq<string>, m: map<string, nat>, n: map<string, nat>)
    requires forall k :: k in keys ==> Lookup(m, k) == Lookup(n, k)
    ensures Total(keys, m) == Total(keys, n)
  {
    if keys != [] {
      assert Lookup(m, keys[0]) == Lookup(n, keys[0]);
      assert forall k :: k in keys[1..] ==> k in keys;
      TotalAgree(keys[1..], m, n);
    }
  }

  /** Changing one listed key moves the total by exactly the change at that key. */
  lemma {:induction false} TotalChange(keys: seq<string>, m: map<string, nat>, n: map<string, nat>, x: string)
    requires Distinct(keys) && x in keys
    requires forall k :: k in keys && k != x ==> Lookup(m, k) == Lookup(n, k)
    ensures Total(keys, n) + Lookup(m, x) == Total(keys, m) + Lookup(n, x)
  {
    assert forall k :: k in keys[1..] ==> k in keys;
    if keys[0] == x {
      assert forall k :: k in keys[1..] ==> k != x;
      TotalAgree(keys[1..], m, n);
    } else {
      assert Lookup(m, keys[0]) == Lookup(n, keys[0]);
      TotalChange(keys[1..], m, n, x);
    }
  }

  /** A pointwise bound carries over to the total. */
  lemma {:induction false} TotalBound(keys: seq<string>, m: map<string, nat>, n: map<string, nat>)
    requires forall k :: k in keys ==> Lookup(m, k) <= Lookup(n, k)
    ensures Total(keys, m) <= Total(keys, n)
  {
    if keys != [] {
      assert keys[0] in keys;
      assert forall k :: k in keys[1..] ==> k in keys;
      TotalBound(keys[1..], m, n);
    }
  }
}
