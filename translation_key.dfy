/** The `applyTranslationKey` mutations of the importer, exporter and road
    survey addons: a configured tool name marked with `translate#` is
    replaced by the translation key behind the marker. The importer tests
    `startsWith` and cuts with `slice`; the exporter and the road survey test
    `indexOf(...) > -1` and cut with `substr`. */
module TranslationKey {
  import opened JsText
  import opened JsValues

  const marker := "translate#"

  /** `String.prototype.substr(start)` for a non-negative start. */
  function Substr(s: string, start: nat): (r: string)
    ensures start <= |s| ==> r == s[start..]
    ensures start > |s| ==> r == []
  {
    if start <= |s| then s[start..] else []
  }

  /** `Array.prototype.indexOf(v) > -1`: some item is strictly equal to v. */
  predicate HasItem(items: seq<JsValue>, v: JsValue) {
    exists i :: 0 <= i < |items| && StrictEquals(items[i], v)
  }

  /** The importer's test and cut: `payload && payload.startsWith(marker)`,
      then `payload.slice(marker.length)`. A truthy payload without
      `startsWith` (anything but a string) throws. Some(name) is the new
      name; None leaves the state as it is. */
  function StripIfPrefixed(payload: JsValue): Outcome<Option<string>> {
    if !Truthy(payload) then Ok(None)
    else if !payload.Str? then TypeError
    else if StartsWith(payload.s, marker) then Ok(Some(payload.s[|marker|..]))
    else Ok(None)
  }

  /** The exporter's and the road survey's test and cut:
      `payload && payload.indexOf(marker) > -1`, then
      `payload.substr(marker.length)`. An array has `indexOf` but no `substr`,
      so it throws only when it holds the marker; other truthy non-strings
      have no `indexOf` and throw. */
  function StripIfContained(payload: JsValue): Outcome<Option<string>> {
    if !Truthy(payload) then Ok(None)
    else match payload
      case Str(s) => if IndexOf(s, marker) > -1 then Ok(Some(Substr(s, |marker|))) else Ok(None)
      case Arr(items) => if HasItem(items, Str(marker)) then TypeError else Ok(None)
      case _ => TypeError
  }

  /** The state after `applyTranslationKey` took its decision: only `name`
      can change, and it changes exactly when a new name was found. */
  function Renamed(state: map<string, JsValue>, target: Outcome<Option<string>>): (r: map<string, JsValue>)
    ensures forall k :: k != "name" ==> (k in r <==> k in state)
    ensures forall k :: k != "name" && k in state ==> r[k] == state[k]
    ensures target.Ok? && target.value.Some? ==> "name" in r && r["name"] == Str(target.value.value)
    ensures !(target.Ok? && target.value.Some?) ==> r == state
  {
    if target.Ok? && target.value.Some? then state["name" := Str(target.value.value)] else state
  }

  /** Importer: a string is renamed iff it starts with the marker, and the
      new name is what follows the marker. */
  lemma PrefixedString(s: string)
    ensures StripIfPrefixed(Str(s)).Ok?
    ensures StripIfPrefixed(Str(s)).value.Some? <==> StartsWith(s, marker)
    ensures StripIfPrefixed(Str(s)).value.Some? ==> marker + StripIfPrefixed(Str(s)).value.value == s
  {
    if StartsWith(s, marker) {
      assert s == s[..|marker|] + s[|marker|..];
    }
  }

  /** Importer: a falsy payload (undefined, null, false, 0, "") changes
      nothing, and exactly the truthy non-strings throw. */
  lemma PrefixedOutcome(payload: JsValue)
    ensures !Truthy(payload) ==> StripIfPrefixed(payload) == Ok(None)
    ensures StripIfPrefixed(payload).TypeError? <==> Truthy(payload) && !payload.Str?
  {
  }

  /** Exporter and road survey: a string is renamed iff the marker occurs in
      it anywhere, and the new name is the string without its first ten
      characters. */
  lemma ContainedString(s: string)
    ensures StripIfContained(Str(s)).Ok?
    ensures StripIfContained(Str(s)).value.Some? <==> exists i :: OccursAt(s, marker, i)
    ensures StripIfContained(Str(s)).value.Some? ==>
              |s| >= |marker| && StripIfContained(Str(s)).value.value == s[|marker|..]
  {
    ContainsIff(s, marker);
    if IndexOf(s, marker) > -1 {
      assert OccursAt(s, marker, IndexOf(s, marker));
    }
  }

  /** Exporter and road survey: falsy payloads change nothing; a truthy
      non-string throws unless it is an array without the marker. */
  lemma ContainedOutcome(payload: JsValue)
    ensures !Truthy(payload) ==> StripIfContained(payload) == Ok(None)
    ensures StripIfContained(payload).TypeError? <==>
              Truthy(payload) && !payload.Str? && (payload.Arr? ==> HasItem(payload.items, Str(marker)))
  {
  }

  /** On a name that starts with the marker both variants give the same name. */
  lemma VariantsAgreeOnPrefix(s: string)
    requires StartsWith(s, marker)
    ensures StripIfContained(Str(s)) == StripIfPrefixed(Str(s))
  {
    StartsWithIndexZero(s, marker);
  }

  /** With the marker after the start, the importer keeps the name while the
      exporter cuts ten characters that are not the marker. */
  lemma MarkerInside()
    ensures StripIfPrefixed(Str("my translate#key")) == Ok(None)
    ensures StripIfContained(Str("my translate#key")) == Ok(Some("te#key"))
  {
    var s := "my translate#key";
    assert OccursAt(s, marker, 3);
    assert !StartsWith(s, marker) by {
      assert s[0] != marker[0];
    }
    assert s[|marker|..] == "te#key";
  }

  /** A string lacking one of the characters of `sub` does not contain it. */
  lemma MissingChar(s: string, sub: string, k: nat)
    requires k < |sub| && sub[k] !in s
    ensures forall i :: !OccursAt(s, sub, i)
  {
    forall i ensures !OccursAt(s, sub, i) {
      if 0 <= i && i + |sub| <= |s| {
        assert s[i..i + |sub|][k] == s[i + k];
      }
    }
  }

  /** The road survey's tests: a marked name loses its marker, an unmarked
      name and an undefined payload leave the name as it is. */
  lemma RoadSurveyCases()
    ensures StripIfContained(Str(marker + "additional:modules.tools.StrassenBefahrung.title"))
            == Ok(Some("additional:modules.tools.StrassenBefahrung.title"))
    ensures StripIfContained(Str("dies ist ein StrassenBefahrung")) == Ok(None)
    ensures StripIfContained(Undefined) == Ok(None)
  {
    UnmarkedCase();
    var key := "additional:modules.tools.StrassenBefahrung.title";
    var marked := marker + key;
    assert StartsWith(marked, marker) by {
      assert marked[..|marker|] == marker;
    }
    VariantsAgreeOnPrefix(marked);
    assert marked[|marker|..] == key;
  }

  lemma UnmarkedCase()
    ensures StripIfContained(Str("dies ist ein StrassenBefahrung")) == Ok(None)
  {
    var plain := "dies ist ein StrassenBefahrung";
    assert marker[9] == '#';
    MissingChar(plain, marker, 9);
    ContainedString(plain);
  }
}
