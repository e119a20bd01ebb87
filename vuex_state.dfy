/** A Vuex module's `state` object, which mutations change in place. The
    state is a map from property name to value; a mutation is a method that
    receives the store and modifies it. */
module VuexState {
  import opened JsValues

  type Values = map<string, JsValue>

  /** What the first i iterations of `for (const key in e) m[key] = e[key]`
      write into an empty map. */
  function Written(e: Entries, i: nat): Values
    requires i <= |e|
    decreases i
  {
    if i == 0 then map[] else Written(e, i - 1)[e[i - 1].0 := Get(e, e[i - 1].0)]
  }

  lemma PrefixSnoc<T>(xs: seq<T>, i: nat)
    requires 0 < i <= |xs|
    ensures xs[..i] == xs[..i - 1] + [xs[i - 1]]
  {
  }

  lemma InSnoc<T>(xs: seq<T>, x: T, y: T)
    ensures y in xs + [x] <==> y == x || y in xs
  {
  }

  lemma UpdateAt<K, V>(m: map<K, V>, key: K, v: V, k: K)
    ensures k in m[key := v] <==> k == key || k in m
    ensures k in m[key := v] ==> m[key := v][k] == if k == key then v else m[k]
  {
  }

  lemma WrittenStep(e: Entries, i: nat)
    requires 0 < i <= |e|
    ensures Written(e, i) == Written(e, i - 1)[e[i - 1].0 := Get(e, e[i - 1].0)]
    ensures Keys(e)[i - 1] == e[i - 1].0
  {
  }

  lemma WrittenZero(e: Entries)
    ensures Written(e, 0) == map[]
    ensures Keys(e)[..0] == []
  {
  }

  lemma {:induction false} WrittenDomain(e: Entries, i: nat, k: string)
    requires i <= |e|
    ensures k in Written(e, i) <==> k in Keys(e)[..i]
    decreases i
  {
    hide *;
    if i == 0 {
      WrittenZero(e);
    } else {
      var ks := Keys(e);
      var key := e[i - 1].0;
      WrittenStep(e, i);
      PrefixSnoc(ks, i);
      InSnoc(ks[..i - 1], key, k);
      UpdateAt(Written(e, i - 1), key, Get(e, key), k);
      WrittenDomain(e, i - 1, k);
    }
  }

  lemma {:induction false} WrittenValue(e: Entries, i: nat, k: string)
    requires 0 < i <= |e| && k in Written(e, i)
    ensures Written(e, i)[k] == Get(e, k)
    decreases i
  {
    hide Get, Written, Keys;
    var key := e[i - 1].0;
    WrittenStep(e, i);
    UpdateAt(Written(e, i - 1), key, Get(e, key), k);
    if k != key {
      WrittenDomain(e, i - 1, k);
      WrittenValue(e, i - 1, k);
    }
  }

  lemma WrittenKeys(e: Entries, i: nat, k: string)
    requires i <= |e|
    ensures k in Written(e, i) <==> k in Keys(e)[..i]
    ensures k in Written(e, i) ==> Written(e, i)[k] == Get(e, k)
  {
    WrittenDomain(e, i, k);
    if k in Written(e, i) {
      WrittenValue(e, i, k);
    }
  }

  /** The properties of an object literal as a map. */
  function ToMap(e: Entries): (m: Values)
    ensures forall k :: k in m <==> HasKey(e, k)
    ensures forall k :: k in m ==> m[k] == Get(e, k)
  {
    assert Keys(e)[..|e|] == Keys(e);
    assert forall k :: k in Written(e, |e|) <==> HasKey(e, k) by {
      forall k ensures k in Written(e, |e|) <==> HasKey(e, k) {
        WrittenKeys(e, |e|, k);
      }
    }
    assert forall k :: k in Written(e, |e|) ==> Written(e, |e|)[k] == Get(e, k) by {
      forall k | k in Written(e, |e|) ensures Written(e, |e|)[k] == Get(e, k) {
        WrittenKeys(e, |e|, k);
      }
    }
    Written(e, |e|)
  }

  /** The state after `for (const key in e) state[key] = e[key]`. */
  function Overwrite(s: Values, e: Entries): Values {
    s + ToMap(e)
  }

  /** Overwriting changes exactly the keys of the object written. */
  lemma OverwriteFrame(s: Values, e: Entries, k: string)
    ensures k in Overwrite(s, e) <==> k in s || HasKey(e, k)
    ensures HasKey(e, k) ==> Overwrite(s, e)[k] == Get(e, k)
    ensures !HasKey(e, k) && k in s ==> Overwrite(s, e)[k] == s[k]
  {
  }

  /** Writing the same constants twice is writing them once. */
  lemma OverwriteIdempotent(s: Values, e: Entries)
    ensures Overwrite(Overwrite(s, e), e) == Overwrite(s, e)
  {
    var once := Overwrite(s, e);
    assert forall k :: k in Overwrite(once, e) <==> k in once;
  }

  /** Updating a union updates its right operand. */
  lemma UnionUpdate(m: Values, w: Values, k: string, v: JsValue)
    ensures (m + w)[k := v] == m + w[k := v]
  {
  }

  class Store {
    var values: Values

    constructor(initial: Entries)
      ensures values == ToMap(initial)
    {
      values := ToMap(initial);
    }

    /** `state[key] = value` */
    method Set(key: string, value: JsValue)
      modifies this
      ensures values == old(values)[key := value]
    {
      values := values[key := value];
    }

    /** `state[key] += 1` on a numeric property. */
    method Increment(key: string)
      requires key in values && values[key].Num?
      modifies this
      ensures values == old(values)[key := Num(old(values)[key].n + 1)]
    {
      values := values[key := Num(values[key].n + 1)];
    }

    /** `for (const key in e) { state[key] = e[key]; }` */
    method AssignEach(e: Entries)
      modifies this
      ensures values == Overwrite(old(values), e)
    {
      hide Get, HasKey;
      var i := 0;
      while i < |e|
        invariant 0 <= i <= |e|
        invariant values == old(values) + Written(e, i)
      {
        var key := e[i].0;
        UnionUpdate(old(values), Written(e, i), key, Get(e, key));
        Set(key, Get(e, key));
        i := i + 1;
      }
      assert Written(e, |e|) == ToMap(e);
    }
  }
}
