/** Unique names for layers the importer adds: a name already used by a
    layer of the portal gets the first free suffix `_1`, `_2`, ... */
module ProcessLayers {
  import opened JsText
  import opened JsValues

  /** The name tried in round `k`: `${baseName}_${k}`. */
  function Candidate(baseName: JsValue, k: nat): JsValue {
    Str(ToJsString(baseName) + "_" + NatToString(k))
  }

  lemma CandidateInjective(baseName: JsValue, j: nat, k: nat)
    requires Candidate(baseName, j) == Candidate(baseName, k)
    ensures j == k
  {
    var prefix := ToJsString(baseName) + "_";
    assert prefix + NatToString(j) == prefix + NatToString(k);
    assert NatToString(j) == (prefix + NatToString(j))[|prefix|..];
    assert NatToString(k) == (prefix + NatToString(k))[|prefix|..];
    NatToStringInjective(j, k);
  }

  lemma CandidateNotBase(baseName: JsValue, k: nat)
    ensures Candidate(baseName, k) != baseName
  {
    if baseName.Str? {
      assert |Candidate(baseName, k).s| > |baseName.s|;
    }
  }

  /** What `generateUniqueLayerName` returns, given the names `taken` by the
      portal's layers: the base name when it is free, and otherwise the
      candidate of the least round whose name is free. */
  ghost predicate IsUniqueName(baseName: JsValue, taken: set<JsValue>, u: JsValue) {
    u !in taken &&
    (baseName !in taken ==> u == baseName) &&
    (baseName in taken ==> exists k :: k >= 1 && u == Candidate(baseName, k) &&
                                     forall j :: 1 <= j < k ==> Candidate(baseName, j) in taken)
  }

  /** Only one name meets that description. */
  lemma UniqueNameDetermined(baseName: JsValue, taken: set<JsValue>, u: JsValue, w: JsValue)
    requires IsUniqueName(baseName, taken, u) && IsUniqueName(baseName, taken, w)
    ensures u == w
  {
    if baseName in taken {
      var k :| k >= 1 && u == Candidate(baseName, k) && forall j :: 1 <= j < k ==> Candidate(baseName, j) in taken;
      var m :| m >= 1 && w == Candidate(baseName, m) && forall j :: 1 <= j < m ==> Candidate(baseName, j) in taken;
    }
  }

  /** The candidate of round `counter` is none of the names tried before,
      which are the base name and the candidates of earlier rounds. */
  lemma FreshCandidate(baseName: JsValue, counter: nat, tried: set<JsValue>)
    requires forall v :: v in tried ==> v == baseName || exists j :: 1 <= j < counter && v == Candidate(baseName, j)
    ensures Candidate(baseName, counter) !in tried
  {
    CandidateNotBase(baseName, counter);
    if Candidate(baseName, counter) in tried && Candidate(baseName, counter) != baseName {
      var j :| 1 <= j < counter && Candidate(baseName, counter) == Candidate(baseName, j);
      CandidateInjective(baseName, j, counter);
    }
  }

  lemma TakenPrefix(baseName: JsValue, taken: set<JsValue>, counter: nat)
    requires counter >= 1 && forall j :: 1 <= j < counter - 1 ==> Candidate(baseName, j) in taken
    requires counter > 1 ==> Candidate(baseName, counter - 1) in taken
    ensures forall j :: 1 <= j < counter ==> Candidate(baseName, j) in taken
  {
  }

  /** `generateUniqueLayerName(baseName)`; the loop ends because every round
      tries a new name and only finitely many are taken. */
  method GenerateUniqueLayerName(baseName: JsValue, taken: set<JsValue>) returns (uniqueName: JsValue)
    ensures IsUniqueName(baseName, taken, uniqueName)
  {
    hide Candidate;
    uniqueName := baseName;
    var counter: nat := 1;
    ghost var tried: set<JsValue> := {};
    while uniqueName in taken
      invariant counter >= 1
      invariant counter == 1 ==> uniqueName == baseName
      invariant counter > 1 ==> uniqueName == Candidate(baseName, counter - 1) && baseName in taken
      invariant forall j :: 1 <= j < counter - 1 ==> Candidate(baseName, j) in taken
      invariant tried <= taken && uniqueName !in tried
      invariant forall v :: v in tried ==> v == baseName || exists j :: 1 <= j < counter && v == Candidate(baseName, j)
      decreases |taken - tried|
    {
      FreshCandidate(baseName, counter, tried + {uniqueName});
      TakenPrefix(baseName, taken, counter);
      tried := tried + {uniqueName};
      uniqueName := Candidate(baseName, counter);
      counter := counter + 1;
    }
    if baseName in taken {
      assert uniqueName == Candidate(baseName, counter - 1);
    }
  }

  /** `{...layer, name: uniqueName}` */
  function WithName(layer: JsValue, name: JsValue): (r: JsValue)
    ensures r.Obj? && Get(r.entries, "name") == name && HasKey(r.entries, "name")
    ensures forall k :: k != "name" ==> Get(r.entries, k) == Get(SpreadSource(layer), k) &&
                                        (HasKey(r.entries, k) <==> HasKey(SpreadSource(layer), k))
  {
    SpreadOne(SpreadSource(layer), "name", name);
    var src := SpreadSource(layer);
    var e := Assign(src, "name", name);
    forall k ensures Get(e, k) == (if k == "name" then name else Get(src, k))
    {
      GetAssign(src, "name", name, k);
    }
    forall k ensures HasKey(e, k) <==> k == "name" || HasKey(src, k)
    {
      HasKeyAssign(src, "name", name, k);
    }
    Obj(Spread(SpreadSource(layer), [("name", name)]))
  }

  /** `copy` is `layer` with its name replaced by a unique one. */
  ghost predicate RenamedCopy(layer: JsValue, taken: set<JsValue>, copy: JsValue) {
    Prop(layer, "name").Ok? &&
    exists u :: IsUniqueName(Prop(layer, "name").value, taken, u) && copy == WithName(layer, u)
  }

  lemma NotThrowing(layer: JsValue)
    ensures Prop(layer, "name").Ok? <==> !(layer.Undefined? || layer.Null?)
  {
  }

  lemma Snoc(selectedLayers: seq<JsValue>, taken: set<JsValue>, out: seq<JsValue>, i: nat, copy: JsValue)
    requires i < |selectedLayers| && |out| == i
    requires forall j :: 0 <= j < i ==> RenamedCopy(selectedLayers[j], taken, out[j])
    requires RenamedCopy(selectedLayers[i], taken, copy)
    ensures forall j :: 0 <= j <= i ==> RenamedCopy(selectedLayers[j], taken, (out + [copy])[j])
  {
    hide RenamedCopy;
    assert forall j :: 0 <= j < i ==> (out + [copy])[j] == out[j];
  }

  /** `processLayersForAdding(selectedLayers)`: every layer is copied with a
      unique name; reading the name of an undefined or null entry throws.
      Names are checked only against the portal's layers, not against the
      other layers of the batch. */
  method ProcessLayersForAdding(selectedLayers: seq<JsValue>, taken: set<JsValue>)
    returns (r: Outcome<seq<JsValue>>)
    ensures r.TypeError? <==> exists i :: 0 <= i < |selectedLayers| && (selectedLayers[i].Undefined? || selectedLayers[i].Null?)
    ensures r.Ok? ==> |r.value| == |selectedLayers|
    ensures r.Ok? ==> forall i :: 0 <= i < |selectedLayers| ==> RenamedCopy(selectedLayers[i], taken, r.value[i])
  {
    var out: seq<JsValue> := [];
    var i := 0;
    while i < |selectedLayers|
      invariant 0 <= i <= |selectedLayers| && |out| == i
      invariant forall j :: 0 <= j < i ==> !(selectedLayers[j].Undefined? || selectedLayers[j].Null?)
      invariant forall j :: 0 <= j < i ==> RenamedCopy(selectedLayers[j], taken, out[j])
    {
      var layer := selectedLayers[i];
      var name := Prop(layer, "name");
      if name.TypeError? {
        return TypeError;
      }
      var u := GenerateUniqueLayerName(name.value, taken);
      var copy := WithName(layer, u);
      assert RenamedCopy(layer, taken, copy);
      hide *;
      NotThrowing(layer);
      Snoc(selectedLayers, taken, out, i, copy);
      out := out + [copy];
      i := i + 1;
    }
    return Ok(out);
  }
}
