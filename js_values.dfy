/** JavaScript values as the addons see them: configs, store state and layer
    objects. An object is the ordered list of its own enumerable properties
    (the order `for...in`, `Object.entries` and object spread use). */
module JsValues {
  import opened JsText

  datatype Option<+T> = None | Some(value: T)

  /** The result of an expression that may throw a TypeError (reading a
      property of `undefined` or `null`, calling a missing method). */
  datatype Outcome<+T> = Ok(value: T) | TypeError

  type Entries = seq<(string, JsValue)>

  /** Numbers are integers here; fractional numbers and NaN are not part of
      this model. A function value carries its source text. */
  datatype JsValue =
    | Undefined
    | Null
    | Bool(b: bool)
    | Num(n: int)
    | Str(s: string)
    | Arr(items: seq<JsValue>)
    | Obj(entries: Entries)
    | Func(source: string)

  /** ToBoolean */
  predicate Truthy(v: JsValue) {
    match v
    case Undefined => false
    case Null => false
    case Bool(b) => b
    case Num(n) => n != 0
    case Str(s) => s != ""
    case _ => true
  }

  /** The `typeof` operator. */
  function TypeOf(v: JsValue): string {
    match v
    case Undefined => "undefined"
    case Null => "object"
    case Bool(_) => "boolean"
    case Num(_) => "number"
    case Str(_) => "string"
    case Arr(_) => "object"
    case Obj(_) => "object"
    case Func(_) => "function"
  }

  /** `a || b` */
  function Or(a: JsValue, b: JsValue): (r: JsValue)
    ensures Truthy(a) ==> r == a
    ensures !Truthy(a) ==> r == b
  {
    if Truthy(a) then a else b
  }

  /** `a ?? b` */
  function Coalesce(a: JsValue, b: JsValue): JsValue {
    if a == Undefined || a == Null then b else a
  }

  predicate IsPrimitive(v: JsValue) {
    !(v.Arr? || v.Obj? || v.Func?)
  }

  /** `===` on primitives. Two object values are compared by reference in
      JavaScript, which this value model cannot see; they count as unequal. */
  predicate StrictEquals(a: JsValue, b: JsValue) {
    IsPrimitive(a) && IsPrimitive(b) && a == b
  }

  /** String(v) */
  function ToJsString(v: JsValue): string
  {
    match v
    case Undefined => "undefined"
    case Null => "null"
    case Bool(b) => if b then "true" else "false"
    case Num(n) => IntToString(n)
    case Str(s) => s
    case Arr(items) => JoinItems(items)
    case Obj(_) => "[object Object]"
    case Func(source) => source
  }

  /** Array.prototype.join(",") applied by String() to an array. */
  function JoinItems(items: seq<JsValue>): string
    decreases items
  {
    if |items| == 0 then ""
    else
      var first := if items[0] == Undefined || items[0] == Null then "" else ToJsString(items[0]);
      if |items| == 1 then first else first + "," + JoinItems(items[1..])
  }

  // ---------------------------------------------------------------------
  // Property access on an object's entry list
  // ---------------------------------------------------------------------

  function Keys(e: Entries): (ks: seq<string>)
    ensures |ks| == |e|
    ensures forall i :: 0 <= i < |e| ==> ks[i] == e[i].0
  {
    seq(|e|, i requires 0 <= i < |e| => e[i].0)
  }

  lemma KeysAppend(a: Entries, k: string, v: JsValue)
    ensures Keys(a + [(k, v)]) == Keys(a) + [k]
  {
  }

  predicate HasKey(e: Entries, key: string) {
    key in Keys(e)
  }

  lemma KeysCons(x: (string, JsValue), r: Entries)
    ensures Keys([x] + r) == [x.0] + Keys(r)
  {
  }

  lemma HasKeyCons(e: Entries, k: string)
    requires |e| > 0
    ensures e == [e[0]] + e[1..]
    ensures HasKey(e, k) <==> e[0].0 == k || HasKey(e[1..], k)
  {
    KeysCons(e[0], e[1..]);
    assert e == [e[0]] + e[1..];
  }

  /** A list of names without repetitions. */
  predicate Distinct(names: seq<string>) {
    forall i, j :: 0 <= i < j < |names| ==> names[i] != names[j]
  }

  /** The next name of a list without repetitions is not among the keys
      already holding the names before it. */
  lemma FreshKey(s: Entries, names: seq<string>, n: nat)
    requires Distinct(names) && n < |names| && Keys(s) == names[..n]
    ensures !HasKey(s, names[n])
  {
    forall i | 0 <= i < n ensures Keys(s)[i] != names[n] {
      assert Keys(s)[i] == names[i];
    }
  }

  /** Appending the next name extends the prefix of names the keys hold. */
  lemma KeysExtend(s: Entries, names: seq<string>, n: nat, v: JsValue)
    requires n < |names| && Keys(s) == names[..n]
    ensures Keys(s + [(names[n], v)]) == names[..n + 1]
  {
    KeysAppend(s, names[n], v);
    assert names[..n + 1] == names[..n] + [names[n]];
  }

  predicate DistinctKeys(e: Entries) {
    forall i, j :: 0 <= i < j < |e| ==> e[i].0 != e[j].0
  }

  /** `obj[key]` for an own property, `undefined` when absent. */
  function Get(e: Entries, key: string): (v: JsValue)
    ensures !HasKey(e, key) ==> v == Undefined
    ensures forall i :: 0 <= i < |e| && e[i].0 == key && (forall j :: 0 <= j < i ==> e[j].0 != key) ==> v == e[i].1
  {
    if |e| == 0 then Undefined
    else if e[0].0 == key then e[0].1
    else Get(e[1..], key)
  }

  /** An object literal: its keys in order and their values. */
  function Zip(ks: seq<string>, vs: seq<JsValue>): (e: Entries)
    requires |ks| == |vs|
    ensures Keys(e) == ks
    ensures |e| == |vs| && forall i :: 0 <= i < |e| ==> e[i].1 == vs[i]
  {
    seq(|ks|, i requires 0 <= i < |ks| => (ks[i], vs[i]))
  }

  /** Reading a key of an object literal gives the value of its first entry. */
  lemma GetZip(ks: seq<string>, vs: seq<JsValue>, i: nat)
    requires |ks| == |vs| && i < |ks| && ks[i] !in ks[..i]
    ensures Get(Zip(ks, vs), ks[i]) == vs[i]
  {
    var e := Zip(ks, vs);
    assert forall j :: 0 <= j < i ==> e[j].0 == ks[j] && ks[j] in ks[..i];
  }

  /** `v.key`: reading a property of undefined or null throws. Own
      properties of objects are modelled; the built-in properties of
      primitives and arrays (such as `length`) are not, and read as undefined. */
  function Prop(v: JsValue, key: string): Outcome<JsValue> {
    match v
    case Undefined => TypeError
    case Null => TypeError
    case Obj(e) => Ok(Get(e, key))
    case _ => Ok(Undefined)
  }

  /** `v?.key`: undefined instead of a throw. */
  function OptionalProp(v: JsValue, key: string): (r: JsValue)
    ensures v == Undefined || v == Null ==> r == Undefined
    ensures v.Obj? ==> r == Get(v.entries, key)
  {
    match Prop(v, key)
    case Ok(w) => w
    case TypeError => Undefined
  }

  /** `obj[key] = v`: an existing property keeps its place, a new one is appended. */
  function Assign(e: Entries, key: string, v: JsValue): (r: Entries)
    ensures HasKey(e, key) ==> |r| == |e|
    ensures !HasKey(e, key) ==> r == e + [(key, v)]
  {
    if |e| == 0 then [(key, v)]
    else if e[0].0 == key then [(key, v)] + e[1..]
    else [e[0]] + Assign(e[1..], key, v)
  }

  /** `delete obj[key]` */
  function Delete(e: Entries, key: string): (r: Entries)
    ensures !HasKey(r, key)
    ensures |r| <= |e|
  {
    if |e| == 0 then []
    else if e[0].0 == key then Delete(e[1..], key)
    else [e[0]] + Delete(e[1..], key)
  }

  /** `{...a, ...b}` */
  function Spread(a: Entries, b: Entries): Entries
    decreases |b|
  {
    if |b| == 0 then a else Spread(Assign(a, b[0].0, b[0].1), b[1..])
  }

  /** Spreading a single property is assigning it. */
  lemma SpreadOne(a: Entries, key: string, v: JsValue)
    ensures Spread(a, [(key, v)]) == Assign(a, key, v)
  {
    assert [(key, v)][1..] == [];
  }

  /** Spreading two properties assigns them in order. */
  lemma SpreadTwo(a: Entries, k1: string, v1: JsValue, k2: string, v2: JsValue)
    ensures Spread(a, [(k1, v1), (k2, v2)]) == Assign(Assign(a, k1, v1), k2, v2)
  {
    assert [(k1, v1), (k2, v2)][1..] == [(k2, v2)];
    SpreadOne(Assign(a, k1, v1), k2, v2);
  }

  /** Assigning a key first found at index i replaces that entry in place. */
  lemma {:induction false} AssignAt(e: Entries, i: nat, v: JsValue)
    requires i < |e| && forall j :: 0 <= j < i ==> e[j].0 != e[i].0
    ensures Assign(e, e[i].0, v) == e[i := (e[i].0, v)]
  {
    if i > 0 {
      var key := e[i].0;
      var t := e[1..];
      assert t[i - 1] == e[i];
      AssignAt(t, i - 1, v);
      assert Assign(e, key, v) == [e[0]] + Assign(t, key, v);
      hide Assign;
      assert [e[0]] + t[i - 1 := (key, v)] == e[i := (key, v)];
    }
  }

  /** `xs.map(f)` with a callback that may throw: the first throw ends the
      map, otherwise every item is mapped in order. */
  function MapOutcome(f: JsValue -> Outcome<JsValue>, xs: seq<JsValue>): (r: Outcome<seq<JsValue>>)
    ensures r.TypeError? <==> exists i :: 0 <= i < |xs| && f(xs[i]).TypeError?
    ensures r.Ok? ==> |r.value| == |xs| && forall i :: 0 <= i < |xs| ==> f(xs[i]) == Ok(r.value[i])
    decreases |xs|
  {
    if |xs| == 0 then Ok([])
    else
      var rest := MapOutcome(f, xs[1..]);
      assert forall i :: 1 <= i < |xs| ==> xs[1..][i - 1] == xs[i];
      if f(xs[0]).TypeError? || rest.TypeError? then TypeError
      else Ok([f(xs[0]).value] + rest.value)
  }

  /** The own enumerable properties `{...v}` copies out of a value. */
  function SpreadSource(v: JsValue): Entries {
    match v
    case Obj(e) => e
    case Arr(items) => seq(|items|, i requires 0 <= i < |items| => (NatToString(i), items[i]))
    case Str(s) => seq(|s|, i requires 0 <= i < |s| => (NatToString(i), Str([s[i]])))
    case _ => []
  }

  /** Assignment keeps the key order and appends a new key at the end. */
  lemma {:induction false} KeysAssign(e: Entries, key: string, v: JsValue)
    ensures Keys(Assign(e, key, v)) == if HasKey(e, key) then Keys(e) else Keys(e) + [key]
  {
    if |e| > 0 && e[0].0 != key {
      var r := Assign(e[1..], key, v);
      assert Assign(e, key, v) == [e[0]] + r;
      HasKeyCons(e, key);
      KeysCons(e[0], e[1..]);
      KeysCons(e[0], r);
      KeysAssign(e[1..], key, v);
      hide Assign, Keys, HasKey;
    } else if |e| > 0 {
      assert Keys(Assign(e, key, v)) == Keys(e);
    }
  }

  lemma HasKeyAssign(e: Entries, key: string, v: JsValue, k: string)
    ensures HasKey(Assign(e, key, v), k) <==> k == key || HasKey(e, k)
  {
    KeysAssign(e, key, v);
  }

  /** Reading a property after assigning one. */
  lemma {:induction false} GetAssign(e: Entries, key: string, v: JsValue, k: string)
    ensures Get(Assign(e, key, v), k) == if k == key then v else Get(e, k)
  {
    if |e| > 0 && e[0].0 != key {
      GetAssign(e[1..], key, v, k);
    }
  }

  /** Assignment never disturbs the order of the other keys and keeps keys distinct. */
  lemma AssignKeepsDistinct(e: Entries, key: string, v: JsValue)
    requires DistinctKeys(e)
    ensures DistinctKeys(Assign(e, key, v))
  {
    var r := Assign(e, key, v);
    KeysAssign(e, key, v);
    var ks := Keys(r);
    forall i, j | 0 <= i < j < |r| ensures r[i].0 != r[j].0 {
      assert r[i].0 == ks[i] && r[j].0 == ks[j];
      if j < |e| {
        assert ks[i] == Keys(e)[i] && ks[j] == Keys(e)[j];
      } else {
        assert ks[j] == key && ks[i] == Keys(e)[i];
      }
    }
  }

  /** Reading a property of `{...a, ...b}`: b wins where it has the key. */
  lemma {:induction false} GetSpread(a: Entries, b: Entries, k: string)
    requires DistinctKeys(b)
    ensures Get(Spread(a, b), k) == if HasKey(b, k) then Get(b, k) else Get(a, k)
    decreases |b|
  {
    if |b| > 0 {
      var a' := Assign(a, b[0].0, b[0].1);
      assert DistinctKeys(b[1..]);
      GetSpread(a', b[1..], k);
      GetAssign(a, b[0].0, b[0].1, k);
      if b[0].0 == k {
        assert !HasKey(b[1..], k);
      } else {
        assert HasKey(b, k) <==> HasKey(b[1..], k) by {
          if HasKey(b, k) {
            var i :| 0 <= i < |b| && b[i].0 == k;
            assert b[1..][i - 1].0 == k;
          }
          if HasKey(b[1..], k) {
            var i :| 0 <= i < |b[1..]| && b[1..][i].0 == k;
            assert b[i + 1].0 == k;
          }
        }
      }
    }
  }

  /** Spreading keeps every key of either side and introduces no other. */
  lemma {:induction false} HasKeySpread(a: Entries, b: Entries, k: string)
    ensures HasKey(Spread(a, b), k) <==> HasKey(a, k) || HasKey(b, k)
    decreases |b|
  {
    if |b| > 0 {
      HasKeySpread(Assign(a, b[0].0, b[0].1), b[1..], k);
      HasKeyAssign(a, b[0].0, b[0].1, k);
      if HasKey(b, k) && b[0].0 != k {
        var i :| 0 <= i < |b| && b[i].0 == k;
        assert b[1..][i - 1].0 == k;
      }
      if HasKey(b[1..], k) {
        var i :| 0 <= i < |b[1..]| && b[1..][i].0 == k;
        assert b[i + 1].0 == k;
      }
    }
  }
}
