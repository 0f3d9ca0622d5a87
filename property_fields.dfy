/**
 * The second-generation banks: the overrides key that selects a variant of
 * a game property field, the field itself with its fall-back look-up, the
 * Serialisable readers that fill a field from JSON, the HP unit
 * conversions and the fog-of-war visibility parser.
 */
module PropertyFields {
  import opened Wrappers
  import opened Text
  import opened Integers
  import opened SafeJson
  import ScriptTypes

  const GAME_PROPERTY_COUNT: nat := 10

  // ------------------------------------------------------------------
  // Overrides
  // ------------------------------------------------------------------

  /** The game property kinds, each with its slot in an overrides key. */
  datatype GameProperty = Commander | Weather | Environment | Country | MovementType
                        | Structure | TileType | Terrain | UnitType | Weapon

  /** hierarchy_index: where a property's script name goes in an overrides key. */
  function HierarchyIndex(gp: GameProperty): (i: nat)
    ensures i < GAME_PROPERTY_COUNT
  {
    match gp
    case Commander => 0
    case Weather => 1
    case Environment => 2
    case Country => 3
    case MovementType => 4
    case Structure => 5
    case TileType => 6
    case Terrain => 7
    case UnitType => 8
    case Weapon => 9
  }

  /** Each property kind has its own slot. */
  lemma HierarchyIndexInjective(a: GameProperty, b: GameProperty)
    ensures HierarchyIndex(a) == HierarchyIndex(b) <==> a == b
  {
  }

  /** overrides: one script name per game property kind, the empty string for none. */
  type Overrides = s: seq<string> | |s| == GAME_PROPERTY_COUNT witness ["", "", "", "", "", "", "", "", "", ""]

  /** An overrides object as constructed: every slot empty. */
  function NoOverrides(): (o: Overrides)
    ensures forall i :: 0 <= i < GAME_PROPERTY_COUNT ==> o[i] == ""
  {
    ["", "", "", "", "", "", "", "", "", ""]
  }

  /** operator==: the ten slots compared one by one. */
  function OverridesEqual(lhs: Overrides, rhs: Overrides): (r: bool)
    ensures r <==> forall i :: 0 <= i < GAME_PROPERTY_COUNT ==> lhs[i] == rhs[i]
  {
    SlotsEqual(lhs, rhs, 0)
  }

  function SlotsEqual(lhs: Overrides, rhs: Overrides, from: nat): (r: bool)
    requires from <= GAME_PROPERTY_COUNT
    ensures r <==> forall i :: from <= i < GAME_PROPERTY_COUNT ==> lhs[i] == rhs[i]
    decreases GAME_PROPERTY_COUNT - from
  {
    if from == GAME_PROPERTY_COUNT then true
    else lhs[from] == rhs[from] && SlotsEqual(lhs, rhs, from + 1)
  }

  /** Slot-wise equality is equality of the keys, so the map of values can be keyed by them. */
  lemma OverridesEqualIsEquality(lhs: Overrides, rhs: Overrides)
    ensures OverridesEqual(lhs, rhs) <==> lhs == rhs
  {
    if OverridesEqual(lhs, rhs) {
      assert forall i :: 0 <= i < |lhs| ==> lhs[i] == rhs[i];
    }
  }

  /**
   * _sanitiseFieldOverrides: a slot below the field's hierarchy index keeps
   * its script name only if that name was recorded for the slot; every
   * other slot is left empty.
   */
  function Sanitised(names: seq<set<string>>, o: Overrides): (r: Overrides)
    requires |names| <= GAME_PROPERTY_COUNT
    ensures forall i :: 0 <= i < |names| && o[i] in names[i] ==> r[i] == o[i]
    ensures forall i :: 0 <= i < |names| && o[i] !in names[i] ==> r[i] == ""
    ensures forall i :: |names| <= i < GAME_PROPERTY_COUNT ==> r[i] == ""
  {
    seq(GAME_PROPERTY_COUNT, i requires 0 <= i < GAME_PROPERTY_COUNT =>
      if i < |names| && o[i] in names[i] then o[i] else "")
  }

  /** Sanitising twice is sanitising once, when every slot records the empty name. */
  lemma SanitisedIdempotent(names: seq<set<string>>, o: Overrides)
    requires |names| <= GAME_PROPERTY_COUNT
    requires forall i :: 0 <= i < |names| ==> "" in names[i]
    ensures Sanitised(names, Sanitised(names, o)) == Sanitised(names, o)
  {
  }

  /** The key with no overrides sanitises to itself. */
  lemma SanitisedNoOverrides(names: seq<set<string>>)
    requires |names| <= GAME_PROPERTY_COUNT
    requires forall i :: 0 <= i < |names| ==> "" in names[i]
    ensures Sanitised(names, NoOverrides()) == NoOverrides()
  {
  }

  // ------------------------------------------------------------------
  // Serialisable readers
  // ------------------------------------------------------------------

  /**
   * How a Serialisable reader ends once the apply it made has raised the
   * bits in failed: success when nothing failed; otherwise success only
   * when the keys did not exist and the field is optional.
   */
  predicate ReadAccepted(failed: set<FailBit>, optional: bool)
  {
    failed == {} || (KeysDidNotExist in failed && optional)
  }

  /**
   * The final step of every Serialisable reader: true in a good state;
   * otherwise the state is reset and the result says whether the keys were
   * missing from an optional field.
   */
  method Conclude(j: JsonObject, optional: bool) returns (ok: bool)
    modifies j
    ensures ok <==> ReadAccepted(old(j.failed), optional)
    ensures j.failed == {} && j.root == old(j.root)
  {
    if j.InGoodState() {
      return true;
    }
    var doesntExist := j.WhatFailed() & Code(KeysDidNotExist) != 0;
    j.ResetState();
    ok := doesntExist && optional;
  }

  /** Serialisable<T>::fromJSON: apply without suppressing errors, then conclude. */
  method FromJson(j: JsonObject, value: Json, keys: seq<string>, optional: bool) returns (ok: bool, newValue: Json)
    modifies j
    ensures newValue == ApplyOutcome(old(j.root), keys, value).dest
    ensures ok <==> ReadAccepted(old(j.failed) + Raised(ApplyOutcome(old(j.root), keys, value).fail), optional)
    ensures j.failed == {} && j.root == old(j.root)
  {
    newValue := j.Apply(value, keys, false);
    ok := Conclude(j, optional);
  }

  /**
   * What a reader reports from a good state: success iff the value was read,
   * or the keys were missing and the field is optional.
   */
  lemma ReadFromGoodState(root: Json, keys: seq<string>, value: Json, optional: bool)
    ensures ReadAccepted({} + Raised(ApplyOutcome(root, keys, value).fail), optional) <==>
      ApplyOutcome(root, keys, value).fail.None? ||
      (keys != [] && KeysExist(root, keys).None? && optional)
  {
  }

  /** A reader that was already in a bad state reports failure unless that state has KEYS_DID_NOT_EXIST. */
  lemma ReadFromBadState(failed: set<FailBit>, raised: set<FailBit>, optional: bool)
    requires failed != {} && KeysDidNotExist !in failed + raised
    ensures !ReadAccepted(failed + raised, optional)
  {
  }

  /** Serialisable<sf::Color>::fromJSON. */
  method ColourFromJson(j: JsonObject, value: Colour, keys: seq<string>, optional: bool) returns (ok: bool, newValue: Colour)
    modifies j
    ensures var o := ApplyArrayOutcome(old(j.root), keys, DefaultColourComponents());
      (newValue == if old(j.failed) + Raised(o.fail) == {} then ColourOf(o.dest) else value) &&
      (ok <==> ReadAccepted(old(j.failed) + Raised(o.fail), optional))
    ensures j.failed == {} && j.root == old(j.root)
  {
    newValue := j.ApplyColour(value, keys, false);
    ok := Conclude(j, optional);
  }

  /** sf::Vector2<T>: two values of the same type. */
  datatype Vector2 = Vector2(x: Json, y: Json)

  /** Serialisable<sf::Vector2<T>>::fromJSON: a two-element array, written only in a good state. */
  method Vector2FromJson(j: JsonObject, value: Vector2, keys: seq<string>, optional: bool) returns (ok: bool, newValue: Vector2)
    modifies j
    ensures var o := ApplyArrayOutcome(old(j.root), keys, [value.x, value.x]);
      (newValue == if old(j.failed) + Raised(o.fail) == {} then Vector2(o.dest[0], o.dest[1]) else value) &&
      (ok <==> ReadAccepted(old(j.failed) + Raised(o.fail), optional))
    ensures j.failed == {} && j.root == old(j.root)
  {
    var vec := j.ApplyArray([value.x, value.x], keys);
    if !j.InGoodState() {
      newValue := value;
      ok := Conclude(j, optional);
      return;
    }
    newValue := Vector2(vec[0], vec[1]);
    ok := true;
  }

  /** A duration, in milliseconds. */
  datatype Time = Milliseconds(ms: Int32)

  /**
   * Serialisable<sf::Time>::fromJSON: an unsigned millisecond count read
   * into a 32-bit sf::Uint32 that starts at 0, so narrowed modulo 2^32; a
   * count above INT32_MAX is refused and leaves the value as it was.
   */
  method TimeFromJson(j: JsonObject, value: Time, keys: seq<string>, optional: bool) returns (ok: bool, newValue: Time)
    modifies j
    ensures var o := ApplyOutcome(old(j.root), keys, JUnsigned(0));
      var failed := old(j.failed) + Raised(o.fail);
      (failed != {} ==> newValue == value && (ok <==> ReadAccepted(failed, optional))) &&
      (failed == {} && ToUnsigned(o.dest.u) > INT32_MAX ==> newValue == value && !ok) &&
      (failed == {} && ToUnsigned(o.dest.u) <= INT32_MAX ==> newValue == Milliseconds(ToUnsigned(o.dest.u)) && ok)
    ensures j.failed == {} && j.root == old(j.root)
  {
    var read := j.Apply(JUnsigned(0), keys, false);
    newValue := value;
    if !j.InGoodState() {
      ok := Conclude(j, optional);
      return;
    }
    var ms := ToUnsigned(read.u);
    if ms > INT32_MAX {
      return false, value;
    }
    newValue := Milliseconds(ms);
    ok := true;
  }

  /** A millisecond count read from a good state is accepted exactly when it fits an Int32. */
  lemma TimeLimit(root: Json, keys: seq<string>, ms: nat)
    requires keys != [] && KeysExist(root, keys) == Some(JUnsigned(ms))
    ensures ApplyOutcome(root, keys, JUnsigned(0)).fail.None?
    ensures ApplyOutcome(root, keys, JUnsigned(0)).dest.u == ms
  {
  }

  /** One element of a bank_array read through its own JSON object: converted if compatible, else untouched. */
  function ElementRead(elem: Json, src: Json): Json
  {
    if EqualType(elem, src) then Convert(elem, src) else elem
  }

  /** The array after Resize(n): elements kept up to n, new ones default-constructed. */
  function Resized(value: seq<Json>, n: nat, template: Json): (r: seq<Json>)
    ensures |r| == n
    ensures forall i :: 0 <= i < n ==> r[i] == if i < |value| then value[i] else template
  {
    seq(n, i requires 0 <= i < n => if i < |value| then value[i] else template)
  }

  /**
   * Serialisable<bank_array<E>>::fromJSON. Missing keys are an error only
   * for a field that is not optional; a value that is not an array is an
   * error; an empty array leaves the field as it was. Otherwise the array
   * is resized and each element is read with its own JSON object, and the
   * result is false if any element failed.
   */
  method BankArrayFromJson(j: JsonObject, value: seq<Json>, template: Json, keys: seq<string>, optional: bool)
    returns (ok: bool, newValue: seq<Json>)
    ensures KeysExist(j.root, keys).None? ==> newValue == value && ok == optional
    ensures KeysExist(j.root, keys).Some? && !KeysExist(j.root, keys).value.JArray? ==> newValue == value && !ok
    ensures KeysExist(j.root, keys).Some? && KeysExist(j.root, keys).value.JArray? ==>
      var p := KeysExist(j.root, keys).value.elems;
      var arr := Resized(value, |p|, template);
      (p == [] ==> newValue == value && ok) &&
      (p != [] ==> (|newValue| == |p| &&
                    (forall i :: 0 <= i < |p| ==> newValue[i] == ElementRead(arr[i], p[i])) &&
                    (ok <==> forall i :: 0 <= i < |p| ==> EqualType(arr[i], p[i]))))
  {
    newValue := value;
    var found := KeysExist(j.root, keys);
    if found.None? {
      return optional, value;
    }
    if !found.value.JArray? {
      return false, value;
    }
    var p := found.value.elems;
    if p == [] {
      return true, value;
    }
    var thereWasAnError := false;
    var arr := Resized(value, |p|, template);
    newValue := arr;
    var i := 0;
    while i < |p|
      invariant 0 <= i <= |p|
      invariant |newValue| == |p|
      invariant forall k :: 0 <= k < i ==> newValue[k] == ElementRead(arr[k], p[k])
      invariant forall k :: i <= k < |p| ==> newValue[k] == arr[k]
      invariant thereWasAnError <==> exists k :: 0 <= k < i && !EqualType(arr[k], p[k])
    {
      var valueKey := "arrayValue" + ScriptTypes.NatToString(i);
      var element := new JsonObject();
      element.Assign(JObject([Member(valueKey, p[i])]));
      KeyExistsOneKey(element.root, valueKey);
      assert KeysExist(element.root, [valueKey]) == Some(p[i]);
      var elementOk, read := FromJson(element, newValue[i], [valueKey], false);
      if !elementOk {
        thereWasAnError := true;
      }
      newValue := newValue[i := read];
      i := i + 1;
    }
    ok := !thereWasAnError;
  }

  // ------------------------------------------------------------------
  // Property fields
  // ------------------------------------------------------------------

  /**
   * property_field<T, GP>: one value per overrides key, always with a value
   * for the key with no overrides, and for each slot below GP's hierarchy
   * index the script names that have been used as overrides there.
   */
  class PropertyField {
    const index: nat
    const zero: Json
    var scriptNames: seq<set<string>>
    var values: map<Overrides, Json>

    ghost predicate Valid()
      reads this
    {
      index < GAME_PROPERTY_COUNT && |scriptNames| == index &&
      (forall i :: 0 <= i < index ==> "" in scriptNames[i]) &&
      NoOverrides() in values
    }

    /**
     * The constructor: each slot records the empty name, the caller's
     * default goes under no overrides, and the JSON value replaces it when
     * it can be read. zero is the value-initialised T that non-const
     * look-ups insert.
     */
    constructor (gp: GameProperty, j: JsonObject, keys: seq<string>, optional: bool, defaultValue: Json, zero: Json)
      modifies j
      ensures Valid() && index == HierarchyIndex(gp) && this.zero == zero
      ensures scriptNames == seq(HierarchyIndex(gp), _ => {""})
      ensures values == map[NoOverrides() := ApplyOutcome(old(j.root), keys, defaultValue).dest]
      ensures j.failed == {} && j.root == old(j.root)
    {
      index := HierarchyIndex(gp);
      this.zero := zero;
      scriptNames := seq(HierarchyIndex(gp), _ => {""});
      var ok, v := FromJson(j, defaultValue, keys, optional);
      values := map[NoOverrides() := v];
    }

    /** The non-const operator[] followed by an assignment: the slots record o's names and o gets v. */
    method Set(o: Overrides, v: Json)
      requires Valid()
      modifies this
      ensures Valid()
      ensures |scriptNames| == index && forall i :: 0 <= i < index ==> scriptNames[i] == old(scriptNames)[i] + {o[i]}
      ensures values == old(values)[o := v]
    {
      var _ := Touch(o);
      values := values[o := v];
    }

    /** The non-const operator[] on its own: a missing key gets the value-initialised T. */
    method Touch(o: Overrides) returns (r: Json)
      requires Valid()
      modifies this
      ensures Valid()
      ensures |scriptNames| == index && forall i :: 0 <= i < index ==> scriptNames[i] == old(scriptNames)[i] + {o[i]}
      ensures o in old(values) ==> values == old(values) && r == old(values)[o]
      ensures o !in old(values) ==> values == old(values)[o := zero] && r == zero
    {
      var names := scriptNames;
      var i := 0;
      while i < index
        invariant 0 <= i <= index && |names| == index
        invariant forall k :: 0 <= k < i ==> names[k] == scriptNames[k] + {o[k]}
        invariant forall k :: i <= k < index ==> names[k] == scriptNames[k]
      {
        names := names[i := names[i] + {o[i]}];
        i := i + 1;
      }
      scriptNames := names;
      if o !in values {
        values := values[o := zero];
      }
      r := values[o];
    }

    /** The const operator[]: the exact key, else the sanitised key, else no overrides. */
    function Get(o: Overrides): (r: Json)
      requires Valid()
      reads this
      ensures o in values ==> r == values[o]
      ensures o !in values && Sanitised(scriptNames, o) in values ==> r == values[Sanitised(scriptNames, o)]
      ensures o !in values && Sanitised(scriptNames, o) !in values ==> r == values[NoOverrides()]
    {
      if o in values then values[o]
      else if Sanitised(scriptNames, o) in values then values[Sanitised(scriptNames, o)]
      else values[NoOverrides()]
    }

    /**
     * _sanitiseFieldOverrides as the loop it is: starting from no
     * overrides, each slot below the hierarchy index copies o's name if the
     * slot records it.
     */
    method SanitiseFieldOverrides(o: Overrides) returns (result: Overrides)
      requires Valid()
      ensures result == Sanitised(scriptNames, o)
    {
      result := NoOverrides();
      var i := 0;
      while i < index
        invariant 0 <= i <= index
        invariant forall k :: 0 <= k < i ==> result[k] == Sanitised(scriptNames, o)[k]
        invariant forall k :: i <= k < GAME_PROPERTY_COUNT ==> result[k] == ""
      {
        if o[i] in scriptNames[i] {
          result := result[i := o[i]];
        }
        i := i + 1;
      }
    }
  }

  /** A look-up never fails: some stored value answers every key. */
  lemma GetAnswersFromStore(f: PropertyField, o: Overrides)
    requires f.Valid()
    ensures f.Get(o) in f.values.Values
  {
  }

  // ------------------------------------------------------------------
  // HP
  // ------------------------------------------------------------------

  /** unit_type::HP_GRANULARITY. */
  const HP_GRANULARITY: int := 10

  /** getDisplayedHP: the internal HP divided by ten, rounded up. */
  function DisplayedHP(hp: Int32): (r: Int32)
    ensures (r - 1) * HP_GRANULARITY < hp <= r * HP_GRANULARITY
  {
    (hp + HP_GRANULARITY - 1) / HP_GRANULARITY
  }

  /** getInternalHP: the displayed HP times ten, wrapping as a 32-bit int. */
  function InternalHP(hp: Int32): (r: Int32)
    ensures INT32_MIN <= hp * HP_GRANULARITY <= INT32_MAX ==> r == hp * HP_GRANULARITY
  {
    ToInt32(hp * HP_GRANULARITY)
  }

  /** Converting a displayed HP to internal and back gives it back, for every value whose product fits. */
  lemma HPRoundTrip(hp: Int32)
    requires INT32_MIN <= hp * HP_GRANULARITY <= INT32_MAX
    ensures DisplayedHP(InternalHP(hp)) == hp
  {
  }

  /** Converting an internal HP to displayed and back rounds it up to the next multiple of ten. */
  lemma HPRoundUp(hp: Int32)
    requires hp <= INT32_MAX - HP_GRANULARITY + 1
    ensures InternalHP(DisplayedHP(hp)) % HP_GRANULARITY == 0
    ensures hp <= InternalHP(DisplayedHP(hp)) < hp + HP_GRANULARITY
  {
  }

  // ------------------------------------------------------------------
  // Fog-of-war visibility
  // ------------------------------------------------------------------

  datatype FowVisibility = Normal | Hidden | Visible

  /** The name each visibility is written as. */
  function VisibilityName(v: FowVisibility): string
  {
    match v
    case Normal => "normal"
    case Hidden => "hidden"
    case Visible => "visible"
  }

  /** The recognised names, after trimming and lower-casing; None for anything else. */
  function ParseVisibility(name: string): (r: Option<FowVisibility>)
    ensures r.None? ==> forall v :: ToLower(Trim(name)) != VisibilityName(v)
    ensures r.Some? ==> ToLower(Trim(name)) == VisibilityName(r.value)
  {
    var lowerCase := ToLower(Trim(name));
    if lowerCase == "normal" then Some(Normal)
    else if lowerCase == "hidden" then Some(Hidden)
    else if lowerCase == "visible" then Some(Visible)
    else None
  }

  /** Each visibility's own name is parsed back to it. */
  lemma VisibilityRoundTrip(v: FowVisibility)
    ensures ParseVisibility(VisibilityName(v)) == Some(v)
  {
    var n := VisibilityName(v);
    ToLowerIs(n, n);
    assert [] + n + [] == n;
    VisibilityIgnoresCaseAndSpace([], n, [], v);
  }

  /** Surrounding white space and upper-case letters are ignored. */
  lemma VisibilityIgnoresCaseAndSpace(pre: string, name: string, post: string, v: FowVisibility)
    requires forall i :: 0 <= i < |pre| ==> IsSpace(pre[i])
    requires forall i :: 0 <= i < |post| ==> IsSpace(post[i])
    requires |name| == |VisibilityName(v)| && ToLower(name) == VisibilityName(v)
    ensures ParseVisibility(pre + name + post) == Some(v)
  {
    var n := VisibilityName(v);
    assert n != [] && !IsSpace(n[0]) && !IsSpace(n[|n| - 1]);
    assert !IsSpace(name[0]) by {
      assert LowerChar(name[0]) == n[0];
    }
    assert !IsSpace(name[|name| - 1]) by {
      assert LowerChar(name[|name| - 1]) == n[|n| - 1];
    }
    TrimPadded(pre, name, post);
    ParseVisibilityOfName(pre + name + post, v);
  }

  /** A string whose trimmed, lower-cased text is a visibility's name parses to that visibility. */
  lemma ParseVisibilityOfName(s: string, v: FowVisibility)
    requires ToLower(Trim(s)) == VisibilityName(v)
    ensures ParseVisibility(s) == Some(v)
  {
  }

  /**
   * Serialisable<fow_visibility>::fromJSON: the name is read as a string
   * defaulting to "Normal"; an unrecognised name or a failed read reports
   * false and leaves the value as it was. A missing optional key therefore
   * yields Normal.
   */
  method FowVisibilityFromJson(j: JsonObject, value: FowVisibility, keys: seq<string>, optional: bool)
    returns (ok: bool, newValue: FowVisibility)
    modifies j
    ensures var o := ApplyOutcome(old(j.root), keys, JString("Normal"));
      var read := ReadAccepted(old(j.failed) + Raised(o.fail), optional);
      (!read ==> !ok && newValue == value) &&
      (read && ParseVisibility(o.dest.s).None? ==> !ok && newValue == value) &&
      (read && ParseVisibility(o.dest.s).Some? ==> ok && newValue == ParseVisibility(o.dest.s).value)
    ensures j.failed == {} && j.root == old(j.root)
  {
    var read, name := FromJson(j, JString("Normal"), keys, optional);
    newValue := value;
    ok := false;
    if read {
      var parsed := ParseVisibility(name.s);
      if parsed.Some? {
        newValue := parsed.value;
        ok := true;
      }
    }
  }

  /** "Normal" itself parses, so a missing optional visibility gives Normal. */
  lemma MissingVisibilityIsNormal()
    ensures ParseVisibility("Normal") == Some(Normal)
  {
    assert ToLower("Normal") == "normal" by {
      assert ToLower("Normal")[0] == LowerChar('N');
    }
    VisibilityIgnoresCaseAndSpace([], "Normal", [], Normal);
    assert [] + "Normal" + [] == "Normal";
  }
}
