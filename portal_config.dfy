/** `searchForConfig(portalConfig, key, value)`, the search the sum query
    and bulk download addons run over the portal configuration to find
    their own configuration object. */
module PortalConfig {
  import opened JsValues

  /** The values `for (const i in node)` walks: an object's own values in
      key order, an array's items; a string's characters are never objects
      and are left out. */
  function Children(node: JsValue): (cs: seq<JsValue>)
    ensures forall i :: 0 <= i < |cs| ==> cs[i] < node
  {
    match node
    case Obj(e) =>
      assert forall i :: 0 <= i < |e| ==> e[i] in e;
      seq(|e|, i requires 0 <= i < |e| => e[i].1)
    case Arr(items) => items
    case _ => []
  }

  /** `typeof v === "object"`: objects, arrays and null. */
  predicate IsObject(v: JsValue) {
    TypeOf(v) == "object"
  }

  /** `node[key] === value` for a node whose property can be read. */
  predicate Matches(node: JsValue, key: string, value: JsValue) {
    Prop(node, key).Ok? && StrictEquals(Prop(node, key).value, value)
  }

  /** The search: the node itself when it matches, else the first result of
      the children that are objects, else null. Reading a property of null
      (a null child, or an undefined configuration) throws. */
  function Search(node: JsValue, key: string, value: JsValue): Outcome<JsValue>
    decreases node, 1
  {
    match Prop(node, key)
    case TypeError => TypeError
    case Ok(v) =>
      if StrictEquals(v, value) then Ok(node)
      else SearchChildren(node, Children(node), key, value)
  }

  function SearchChildren(node: JsValue, cs: seq<JsValue>, key: string, value: JsValue): Outcome<JsValue>
    requires forall i :: 0 <= i < |cs| ==> cs[i] < node
    decreases node, 0, |cs|
  {
    if |cs| == 0 then Ok(Null)
    else if IsObject(cs[0]) then
      match Search(cs[0], key, value)
      case TypeError => TypeError
      case Ok(found) => if Truthy(found) then Ok(found) else SearchChildren(node, cs[1..], key, value)
    else SearchChildren(node, cs[1..], key, value)
  }

  /** The nodes the search visits, in order: the node, then depth first
      each child that is an object. */
  function Visited(node: JsValue): seq<JsValue>
    decreases node, 1
  {
    [node] + VisitedChildren(node, Children(node))
  }

  function VisitedChildren(node: JsValue, cs: seq<JsValue>): seq<JsValue>
    requires forall i :: 0 <= i < |cs| ==> cs[i] < node
    decreases node, 0, |cs|
  {
    if |cs| == 0 then []
    else (if IsObject(cs[0]) then Visited(cs[0]) else []) + VisitedChildren(node, cs[1..])
  }

  /** The reference search on a list of nodes: the first that throws or
      matches decides; null when none does. */
  function FirstMatch(vs: seq<JsValue>, key: string, value: JsValue): (r: Outcome<JsValue>)
    ensures r.Ok? && r.value != Null ==> r.value in vs && Matches(r.value, key, value)
  {
    if |vs| == 0 then Ok(Null)
    else match Prop(vs[0], key)
      case TypeError => TypeError
      case Ok(v) => if StrictEquals(v, value) then Ok(vs[0]) else FirstMatch(vs[1..], key, value)
  }

  lemma {:induction false} FirstMatchAppend(a: seq<JsValue>, b: seq<JsValue>, key: string, value: JsValue)
    ensures FirstMatch(a + b, key, value) ==
              if FirstMatch(a, key, value) == Ok(Null) then FirstMatch(b, key, value) else FirstMatch(a, key, value)
  {
    if |a| > 0 {
      assert (a + b)[0] == a[0] && (a + b)[1..] == a[1..] + b;
      FirstMatchAppend(a[1..], b, key, value);
    } else {
      assert a + b == b;
    }
  }

  /** Everything a search below an object visits is an object. */
  lemma {:induction false} VisitedObjects(node: JsValue)
    requires IsObject(node)
    ensures forall x :: x in Visited(node) ==> IsObject(x)
    decreases node, 1
  {
    VisitedChildrenObjects(node, Children(node));
  }

  lemma {:induction false} VisitedChildrenObjects(node: JsValue, cs: seq<JsValue>)
    requires forall i :: 0 <= i < |cs| ==> cs[i] < node
    ensures forall x :: x in VisitedChildren(node, cs) ==> IsObject(x)
    decreases node, 0, |cs|
  {
    if |cs| > 0 {
      if IsObject(cs[0]) {
        VisitedObjects(cs[0]);
      }
      VisitedChildrenObjects(node, cs[1..]);
    }
  }

  /** A match found below an object is an object or an array, so `if
      (found)` accepts it. */
  lemma FoundIsTruthy(c: JsValue, key: string, value: JsValue)
    requires IsObject(c)
    ensures FirstMatch(Visited(c), key, value).Ok? ==>
              (Truthy(FirstMatch(Visited(c), key, value).value) <==> FirstMatch(Visited(c), key, value) != Ok(Null))
  {
    VisitedObjects(c);
  }

  /** The search is the first match of the depth-first, key-ordered walk. */
  lemma {:induction false} SearchIsFirstMatch(node: JsValue, key: string, value: JsValue)
    ensures Search(node, key, value) == FirstMatch(Visited(node), key, value)
    decreases node, 1
  {
    var cs := Children(node);
    ChildrenFirstMatch(node, cs, key, value);
    assert Visited(node) == [node] + VisitedChildren(node, cs);
    assert ([node] + VisitedChildren(node, cs))[1..] == VisitedChildren(node, cs);
  }

  lemma {:induction false} ChildrenFirstMatch(node: JsValue, cs: seq<JsValue>, key: string, value: JsValue)
    requires forall i :: 0 <= i < |cs| ==> cs[i] < node
    ensures SearchChildren(node, cs, key, value) == FirstMatch(VisitedChildren(node, cs), key, value)
    decreases node, 0, |cs|
  {
    if |cs| > 0 {
      var head := if IsObject(cs[0]) then Visited(cs[0]) else [];
      ChildrenFirstMatch(node, cs[1..], key, value);
      FirstMatchAppend(head, VisitedChildren(node, cs[1..]), key, value);
      if IsObject(cs[0]) {
        SearchIsFirstMatch(cs[0], key, value);
        FoundIsTruthy(cs[0], key, value);
      }
    }
  }

  /** A first match that is not null matches, and every node before it in
      the walk could be read and did not match. */
  lemma {:induction false} FirstMatchEarliest(vs: seq<JsValue>, key: string, value: JsValue)
    ensures FirstMatch(vs, key, value) == Ok(Null) <==>
              forall i :: 0 <= i < |vs| ==> Prop(vs[i], key).Ok? && !Matches(vs[i], key, value)
    ensures FirstMatch(vs, key, value).TypeError? <==>
              exists i :: 0 <= i < |vs| && Prop(vs[i], key).TypeError? &&
                          forall j :: 0 <= j < i ==> !Matches(vs[j], key, value)
  {
    if |vs| > 0 {
      FirstMatchEarliest(vs[1..], key, value);
      var t := vs[1..];
      assert forall i :: 1 <= i < |vs| ==> vs[i] == t[i - 1];
      if Prop(vs[0], key).Ok? && !Matches(vs[0], key, value) && FirstMatch(t, key, value).TypeError? {
        var i :| 0 <= i < |t| && Prop(t[i], key).TypeError? && forall j :: 0 <= j < i ==> !Matches(t[j], key, value);
        assert Prop(vs[i + 1], key).TypeError? && forall j :: 0 <= j < i + 1 ==> !Matches(vs[j], key, value);
      }
    }
  }

  /** The configuration found is a node of the walk with `node[key] ===
      value`; null means no readable node matched. */
  lemma SearchResult(node: JsValue, key: string, value: JsValue)
    ensures Search(node, key, value).Ok? && Search(node, key, value).value != Null ==>
              Search(node, key, value).value in Visited(node) && Matches(Search(node, key, value).value, key, value)
    ensures Search(node, key, value) == Ok(Null) <==>
              forall i :: 0 <= i < |Visited(node)| ==> Prop(Visited(node)[i], key).Ok? && !Matches(Visited(node)[i], key, value)
    ensures Matches(node, key, value) ==> Search(node, key, value) == Ok(node)
  {
    SearchIsFirstMatch(node, key, value);
    FirstMatchEarliest(Visited(node), key, value);
  }

  /** Without a portal configuration the search throws; a null value met
      before the match throws as well, since `typeof null` is "object". */
  lemma SearchThrows(value: JsValue)
    ensures Search(Undefined, "type", value).TypeError?
    ensures Search(Obj([("a", Null), ("b", Obj([("type", Str("x"))]))]), "type", Str("x")).TypeError?
    ensures Search(Obj([("b", Obj([("type", Str("x"))])), ("a", Null)]), "type", Str("x")) == Ok(Obj([("type", Str("x"))]))
  {
    var hit := Obj([("type", Str("x"))]);
    assert Search(hit, "type", Str("x")) == Ok(hit);
    var n1 := Obj([("a", Null), ("b", hit)]);
    assert Children(n1) == [Null, hit];
    assert SearchChildren(n1, [Null, hit], "type", Str("x")).TypeError?;
    var n2 := Obj([("b", hit), ("a", Null)]);
    assert Children(n2) == [hit, Null];
    assert SearchChildren(n2, [hit, Null], "type", Str("x")) == Ok(hit);
  }
}
