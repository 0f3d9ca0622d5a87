/**
 * The engine's "safe" JSON layer: a wrapper round one JSON object that
 * records failures as error bits instead of throwing, key-path look-up,
 * the value-type compatibility rules, and the apply operations that write
 * a destination only when the whole read succeeds.
 */
module SafeJson {
  import opened Wrappers

  const INT_MAX: int := 2147483647
  const UINT64_LIMIT: int := 0x1_0000_0000_0000_0000

  // ------------------------------------------------------------------
  // JSON values
  // ------------------------------------------------------------------

  /**
   * An ordered JSON value. Integers parsed as non-negative are unsigned, as
   * the JSON library does; floats are exact reals (no NaN or infinity).
   */
  datatype Json =
    | JNull
    | JBool(b: bool)
    | JInt(i: int)
    | JUnsigned(u: nat)
    | JFloat(f: real)
    | JString(s: string)
    | JArray(elems: seq<Json>)
    | JObject(members: seq<Member>)

  /** One key/value pair of an object, in insertion order. */
  datatype Member = Member(key: string, value: Json)

  /** The type tags the compatibility rules compare. */
  datatype JsonType = NullType | BooleanType | IntegerType | UnsignedType | FloatType | StringType | ArrayType | ObjectType

  function TypeOf(j: Json): JsonType
  {
    match j
    case JNull => NullType
    case JBool(_) => BooleanType
    case JInt(_) => IntegerType
    case JUnsigned(_) => UnsignedType
    case JFloat(_) => FloatType
    case JString(_) => StringType
    case JArray(_) => ArrayType
    case JObject(_) => ObjectType
  }

  /** is_number_integer: true for signed and unsigned integers alike. */
  predicate IsNumberInteger(j: Json) { j.JInt? || j.JUnsigned? }

  /** A float whose fractional part is 0. */
  predicate IsWhole(f: real) { f.Floor as real == f }

  /** The value stored under a key of an object's member list: the first match. */
  function Lookup(members: seq<Member>, key: string): (r: Option<Json>)
    ensures r.Some? ==> exists i :: 0 <= i < |members| && members[i] == Member(key, r.value)
    ensures r.None? ==> forall i :: 0 <= i < |members| ==> members[i].key != key
  {
    if members == [] then None
    else if members[0].key == key then Some(members[0].value)
    else Lookup(members[1..], key)
  }

  /** obj[key] followed by the rest of the key sequence; None when some key is missing. */
  function KeyExists(obj: Json, keys: seq<string>): (r: Option<Json>)
    decreases |keys|
  {
    if keys == [] then Some(obj)
    else if obj.JObject? && Lookup(obj.members, keys[0]).Some? then
      KeyExists(Lookup(obj.members, keys[0]).value, keys[1..])
    else None
  }

  /**
   * keysExist: false for an empty key sequence, otherwise whether every key
   * resolves through nested objects. The value found (written to *ret in
   * the source, and only on success) is the payload of Some.
   */
  function KeysExist(root: Json, keys: seq<string>): (r: Option<Json>)
    ensures keys == [] ==> r.None?
  {
    if keys == [] then None else KeyExists(root, keys)
  }

  /** Looking up a path in two parts is looking up the whole path. */
  lemma {:induction false} KeyExistsConcat(obj: Json, k1: seq<string>, k2: seq<string>)
    ensures KeyExists(obj, k1 + k2) ==
      (if KeyExists(obj, k1).Some? then KeyExists(KeyExists(obj, k1).value, k2) else None)
    decreases |k1|
  {
    if k1 == [] {
      assert k1 + k2 == k2;
    } else {
      assert (k1 + k2)[0] == k1[0];
      assert (k1 + k2)[1..] == k1[1..] + k2;
      if obj.JObject? && Lookup(obj.members, k1[0]).Some? {
        KeyExistsConcat(Lookup(obj.members, k1[0]).value, k1[1..], k2);
      }
    }
  }

  /** A single key finds the object's member; no key resolves inside a value that is not an object. */
  lemma KeyExistsOneKey(obj: Json, key: string)
    ensures KeyExists(obj, [key]) == (if obj.JObject? then Lookup(obj.members, key) else None)
  {
    assert [key][1..] == [];
  }

  // ------------------------------------------------------------------
  // Type compatibility
  // ------------------------------------------------------------------

  /**
   * equalType: may a JSON value src be read into a destination whose JSON
   * form is dest?
   */
  function EqualType(dest: Json, src: Json): bool
  {
    if TypeOf(dest) == TypeOf(src) then true
    else if IsNumberInteger(dest) && src.JUnsigned? && src.u <= INT_MAX then true
    else if dest.JFloat? && IsNumberInteger(src) then true
    else if IsNumberInteger(dest) && src.JFloat? && IsWhole(src.f) then true
    else false
  }

  /** Identical types are compatible. */
  lemma EqualTypeSameType(dest: Json, src: Json)
    requires TypeOf(dest) == TypeOf(src)
    ensures EqualType(dest, src)
  {
  }

  /** An unsigned value fits a signed destination only up to INT_MAX. */
  lemma EqualTypeUnsignedOntoSigned(dest: Json, src: Json)
    requires dest.JInt? && src.JUnsigned?
    ensures EqualType(dest, src) <==> src.u <= INT_MAX
  {
  }

  /** A signed value never fits an unsigned destination, whatever its value. */
  lemma EqualTypeSignedOntoUnsigned(dest: Json, src: Json)
    requires dest.JUnsigned? && src.JInt?
    ensures !EqualType(dest, src)
  {
  }

  /** Any integer fits a float destination. */
  lemma EqualTypeIntegerOntoFloat(dest: Json, src: Json)
    requires dest.JFloat? && IsNumberInteger(src)
    ensures EqualType(dest, src)
  {
  }

  /** A float fits an integer destination exactly when its fraction is 0. */
  lemma EqualTypeFloatOntoInteger(dest: Json, src: Json)
    requires IsNumberInteger(dest) && src.JFloat?
    ensures EqualType(dest, src) <==> IsWhole(src.f)
  {
  }

  /** Outside the numbers, a value is compatible only with its own type. */
  lemma EqualTypeNonNumeric(dest: Json, src: Json)
    requires !(dest.JInt? || dest.JUnsigned? || dest.JFloat?) || !(src.JInt? || src.JUnsigned? || src.JFloat?)
    ensures EqualType(dest, src) <==> TypeOf(dest) == TypeOf(src)
  {
  }

  /**
   * test.get<T>() for a compatible value, T being the type of dest: the
   * value converted to the destination's JSON type, that is to the 64-bit
   * number the JSON library holds (a negative whole float read as unsigned
   * is reduced modulo 2^64). A Json value does not carry the width of the
   * C++ field; the further narrowing of get<unsigned int>() or get<int>()
   * to 32 bits is done by the readers of those fields (Banks.ReadUnsigned,
   * Banks.ReadSigned).
   */
  function Convert(dest: Json, src: Json): (r: Json)
    requires EqualType(dest, src)
    ensures TypeOf(r) == TypeOf(dest)
    ensures TypeOf(src) == TypeOf(dest) ==> r == src
  {
    if TypeOf(dest) == TypeOf(src) then src
    else if dest.JInt? && src.JUnsigned? then JInt(src.u)
    else if dest.JFloat? && src.JInt? then JFloat(src.i as real)
    else if dest.JFloat? && src.JUnsigned? then JFloat(src.u as real)
    else if dest.JInt? then JInt(src.f.Floor)
    else JUnsigned(src.f.Floor % UINT64_LIMIT)
  }

  // ------------------------------------------------------------------
  // Error bits
  // ------------------------------------------------------------------

  /** The json_state fail bits. */
  datatype FailBit =
    | JsonWasNotObject | KeysDidNotExist | MismatchingType | NoKeysGiven
    | FailedLoadMethod | FailedSaveMethod | FailedScriptLoad | FailedScriptSave
    | Unparsable | MismatchingSize | MismatchingElementType

  /** The FailBits value of each bit (SUCCESS is 0, no bit set). */
  function Code(b: FailBit): bv16
  {
    match b
    case JsonWasNotObject => 0x1
    case KeysDidNotExist => 0x2
    case MismatchingType => 0x4
    case NoKeysGiven => 0x8
    case FailedLoadMethod => 0x10
    case FailedSaveMethod => 0x20
    case FailedScriptLoad => 0x40
    case FailedScriptSave => 0x80
    case Unparsable => 0x100
    case MismatchingSize => 0x200
    case MismatchingElementType => 0x400
  }

  /** The fail bits are distinct single bits, so a bit sequence records exactly a set of them. */
  lemma FailBitsAreDistinctSingleBits(b1: FailBit, b2: FailBit)
    ensures Code(b1) != 0 && Code(b1) & (Code(b1) - 1) == 0
    ensures b1 != b2 ==> Code(b1) & Code(b2) == 0
  {
  }

  /** The bit sequence that records a set of fail bits. */
  function BitsOf(failed: set<FailBit>): bv16
  {
    (if JsonWasNotObject in failed then 0x1 else 0) | (if KeysDidNotExist in failed then 0x2 else 0)
    | (if MismatchingType in failed then 0x4 else 0) | (if NoKeysGiven in failed then 0x8 else 0)
    | (if FailedLoadMethod in failed then 0x10 else 0) | (if FailedSaveMethod in failed then 0x20 else 0)
    | (if FailedScriptLoad in failed then 0x40 else 0) | (if FailedScriptSave in failed then 0x80 else 0)
    | (if Unparsable in failed then 0x100 else 0) | (if MismatchingSize in failed then 0x200 else 0)
    | (if MismatchingElementType in failed then 0x400 else 0)
  }

  /** Each bit of the recorded sequence, read back. */
  lemma BitsOfEach(failed: set<FailBit>)
    ensures BitsOf(failed) & 0x1 != 0 <==> JsonWasNotObject in failed
    ensures BitsOf(failed) & 0x2 != 0 <==> KeysDidNotExist in failed
    ensures BitsOf(failed) & 0x4 != 0 <==> MismatchingType in failed
    ensures BitsOf(failed) & 0x8 != 0 <==> NoKeysGiven in failed
    ensures BitsOf(failed) & 0x10 != 0 <==> FailedLoadMethod in failed
    ensures BitsOf(failed) & 0x20 != 0 <==> FailedSaveMethod in failed
    ensures BitsOf(failed) & 0x40 != 0 <==> FailedScriptLoad in failed
    ensures BitsOf(failed) & 0x80 != 0 <==> FailedScriptSave in failed
    ensures BitsOf(failed) & 0x100 != 0 <==> Unparsable in failed
    ensures BitsOf(failed) & 0x200 != 0 <==> MismatchingSize in failed
    ensures BitsOf(failed) & 0x400 != 0 <==> MismatchingElementType in failed
  {
  }

  /** Testing a recorded bit sequence against a fail bit tells whether that bit was raised. */
  lemma BitsOfTest(failed: set<FailBit>, b: FailBit)
    ensures BitsOf(failed) & Code(b) != 0 <==> b in failed
  {
    BitsOfEach(failed);
    match b
    case JsonWasNotObject =>
    case KeysDidNotExist =>
    case MismatchingType =>
    case NoKeysGiven =>
    case FailedLoadMethod =>
    case FailedSaveMethod =>
    case FailedScriptLoad =>
    case FailedScriptSave =>
    case Unparsable =>
    case MismatchingSize =>
    case MismatchingElementType =>
  }

  /** Only the empty set of fail bits is recorded as SUCCESS. */
  lemma BitsOfSuccess(failed: set<FailBit>)
    ensures BitsOf(failed) == 0 <==> failed == {}
  {
    if failed != {} {
      var b :| b in failed;
      BitsOfTest(failed, b);
    }
  }

  /** The bits an outcome raises. */
  function Raised(fail: Option<FailBit>): set<FailBit>
  {
    if fail.None? then {} else {fail.value}
  }

  // ------------------------------------------------------------------
  // Outcomes of the apply operations
  // ------------------------------------------------------------------

  /** What an apply call leaves in its destination and which fail bit it raises (None for none). */
  datatype Outcome<T> = Outcome(dest: T, fail: Option<FailBit>)

  /** apply: a successful read converts the value found; any failure leaves dest as it was. */
  function ApplyOutcome(root: Json, keys: seq<string>, dest: Json): (r: Outcome<Json>)
    ensures r.fail.None? || r.dest == dest
    ensures r.fail.None? <==> KeysExist(root, keys).Some? && EqualType(dest, KeysExist(root, keys).value)
    ensures keys == [] ==> r.fail == Some(NoKeysGiven)
    ensures keys != [] && KeysExist(root, keys).None? ==> r.fail == Some(KeysDidNotExist)
    ensures KeysExist(root, keys).Some? && !EqualType(dest, KeysExist(root, keys).value) ==> r.fail == Some(MismatchingType)
  {
    if keys == [] then Outcome(dest, Some(NoKeysGiven))
    else
      var test := KeysExist(root, keys);
      if test.None? then Outcome(dest, Some(KeysDidNotExist))
      else if EqualType(dest, test.value) then Outcome(Convert(dest, test.value), None)
      else Outcome(dest, Some(MismatchingType))
  }

  /** Every element of a JSON array fits the destination type. */
  predicate AllCompatible(template: Json, elems: seq<Json>)
  {
    forall i :: 0 <= i < |elems| ==> EqualType(template, elems[i])
  }

  /** The elements converted to the destination type. */
  function ConvertAll(template: Json, elems: seq<Json>): (r: seq<Json>)
    requires AllCompatible(template, elems)
    ensures |r| == |elems|
    ensures forall i :: 0 <= i < |elems| ==> r[i] == Convert(template, elems[i])
  {
    if elems == [] then [] else [Convert(template, elems[0])] + ConvertAll(template, elems[1..])
  }

  /**
   * applyArray into a fixed-size array whose element type is that of
   * dest[0]. An array of size 0 is never touched. dest is written only when
   * the value found is an array of exactly |dest| compatible elements.
   */
  function ApplyArrayOutcome(root: Json, keys: seq<string>, dest: seq<Json>): (r: Outcome<seq<Json>>)
    ensures |dest| == 0 ==> r == Outcome(dest, None)
    ensures r.fail.None? || r.dest == dest
    ensures |r.dest| == |dest|
    ensures |dest| > 0 && r.fail.None? ==>
      var test := KeysExist(root, keys);
      test.Some? && test.value.JArray? && |test.value.elems| == |dest| && AllCompatible(dest[0], test.value.elems)
    ensures |dest| > 0 && keys == [] ==> r.fail == Some(NoKeysGiven)
  {
    if |dest| == 0 then Outcome(dest, None)
    else if keys == [] then Outcome(dest, Some(NoKeysGiven))
    else
      var test := KeysExist(root, keys);
      if test.None? then Outcome(dest, Some(KeysDidNotExist))
      else if !test.value.JArray? then Outcome(dest, Some(MismatchingType))
      else if |test.value.elems| != |dest| then Outcome(dest, Some(MismatchingSize))
      else if !AllCompatible(dest[0], test.value.elems) then Outcome(dest, Some(MismatchingElementType))
      else Outcome(ConvertAll(dest[0], test.value.elems), None)
  }

  /**
   * applyVector into a vector whose element type is that of template (the
   * default T()). The vector is replaced only when every element of a
   * non-empty JSON array is compatible; an empty JSON array leaves it as it
   * was and raises nothing.
   */
  function ApplyVectorOutcome(root: Json, keys: seq<string>, dest: seq<Json>, template: Json): (r: Outcome<seq<Json>>)
    ensures r.fail.None? || r.dest == dest
    ensures r.dest != dest ==> var test := KeysExist(root, keys);
      test.Some? && test.value.JArray? && |test.value.elems| > 0 && AllCompatible(template, test.value.elems)
    ensures keys == [] ==> r.fail == Some(NoKeysGiven)
  {
    if keys == [] then Outcome(dest, Some(NoKeysGiven))
    else
      var test := KeysExist(root, keys);
      if test.None? then Outcome(dest, Some(KeysDidNotExist))
      else if !test.value.JArray? then Outcome(dest, Some(MismatchingType))
      else if |test.value.elems| == 0 then Outcome(dest, None)
      else if !AllCompatible(template, test.value.elems) then Outcome(dest, Some(MismatchingElementType))
      else Outcome(ConvertAll(template, test.value.elems), None)
  }

  /** An empty JSON array leaves a vector untouched and raises no error. */
  lemma ApplyVectorEmptyArray(root: Json, keys: seq<string>, dest: seq<Json>, template: Json)
    requires KeysExist(root, keys) == Some(JArray([]))
    ensures ApplyVectorOutcome(root, keys, dest, template) == Outcome(dest, None)
  {
  }

  // ------------------------------------------------------------------
  // Key-sequence text
  // ------------------------------------------------------------------

  /** A key in double quotes. */
  function Quote(key: string): string { "\"" + key + "\"" }

  /** The quoted keys separated by ", ". */
  function QuotedList(keys: seq<string>): (s: string)
    requires keys != []
    decreases |keys|
  {
    if |keys| == 1 then Quote(keys[0])
    else QuotedList(keys[..|keys| - 1]) + ", " + Quote(keys[|keys| - 1])
  }

  /** The text used in error messages for a key sequence: "" or {"k1", "k2", ...}. */
  function KeySequenceText(keys: seq<string>): string
  {
    if keys == [] then "" else "{" + QuotedList(keys) + "}"
  }

  /** The list text of two non-empty key sequences joined is their texts joined by ", ". */
  lemma {:induction false} QuotedListConcat(a: seq<string>, b: seq<string>)
    requires a != [] && b != []
    ensures QuotedList(a + b) == QuotedList(a) + ", " + QuotedList(b)
    decreases |b|
  {
    if |b| == 1 {
      assert (a + b)[..|a + b| - 1] == a;
    } else {
      var b' := b[..|b| - 1];
      assert (a + b)[..|a + b| - 1] == a + b';
      assert (a + b)[|a + b| - 1] == b[|b| - 1];
      QuotedListConcat(a, b');
    }
  }

  /** synthesiseKeySequence, built in a loop as the source does. */
  method SynthesiseKeySequence(keys: seq<string>) returns (ret: string)
    ensures ret == KeySequenceText(keys)
    ensures keys != [] ==> ret[0] == '{' && ret[|ret| - 1] == '}'
  {
    if keys == [] {
      return "";
    }
    ret := "{";
    var firstLoop := true;
    var i := 0;
    while i < |keys|
      invariant 0 <= i <= |keys|
      invariant firstLoop <==> i == 0
      invariant i == 0 ==> ret == "{"
      invariant i > 0 ==> ret == "{" + QuotedList(keys[..i])
    {
      if firstLoop {
        firstLoop := false;
      } else {
        ret := ret + ", ";
      }
      ret := ret + "\"" + keys[i] + "\"";
      assert keys[..i + 1][..i] == keys[..i];
      i := i + 1;
    }
    assert keys[..|keys|] == keys;
    ret := ret + "}";
  }

  /** concatKeys: the parent keys followed by the child keys. */
  function ConcatKeys(parentKeys: seq<string>, childKeys: seq<string>): (r: seq<string>)
    ensures |r| == |parentKeys| + |childKeys|
    ensures r[..|parentKeys|] == parentKeys && r[|parentKeys|..] == childKeys
  {
    parentKeys + childKeys
  }

  /** Looking up concatenated keys descends through the parent keys first. */
  lemma ConcatKeysLookup(root: Json, parentKeys: seq<string>, childKeys: seq<string>)
    requires parentKeys != [] && childKeys != []
    ensures KeysExist(root, ConcatKeys(parentKeys, childKeys)).Some? <==>
      KeysExist(root, parentKeys).Some? && KeysExist(KeysExist(root, parentKeys).value, childKeys).Some?
  {
    KeyExistsConcat(root, parentKeys, childKeys);
  }

  // ------------------------------------------------------------------
  // The JSON object with its error state
  // ------------------------------------------------------------------

  /** The four components of sf::Color, each an 8-bit value. */
  datatype Colour = Colour(r: nat, g: nat, b: nat, a: nat)

  /** engine::json: one JSON object and the fail bits raised since the last reset. */
  class JsonObject {
    var failed: set<FailBit>
    var root: Json

    ghost predicate Valid()
      reads this
    {
      root.JObject?
    }

    /** A new object is empty and in a good state. */
    constructor ()
      ensures Valid() && root == JObject([])
      ensures failed == {} && InGoodState()
    {
      failed := {};
      root := JObject([]);
    }

    /** inGoodState: the bit sequence equals SUCCESS. */
    function InGoodState(): (r: bool)
      reads this
      ensures r <==> WhatFailed() == 0
    {
      BitsOfSuccess(failed);
      failed == {}
    }

    /** whatFailed: the bit sequence to test against. */
    function WhatFailed(): (r: bv16)
      reads this
      ensures forall b: FailBit :: r & Code(b) != 0 <==> b in failed
    {
      var r := BitsOf(failed);
      assert forall b: FailBit :: r & Code(b) != 0 <==> b in failed by {
        forall b: FailBit ensures r & Code(b) != 0 <==> b in failed {
          BitsOfTest(failed, b);
        }
      }
      r
    }

    /** resetState: back to SUCCESS. */
    method ResetState()
      modifies this
      ensures failed == {} && root == old(root)
    {
      failed := {};
    }

    /** _toggleState: OR one bit in; no bit is ever cleared. */
    method ToggleState(state: FailBit)
      modifies this
      ensures failed == old(failed) + {state} && root == old(root)
      ensures WhatFailed() & Code(state) != 0
    {
      failed := failed + {state};
    }

    /** Raises the bit of an outcome, if any. */
    method Raise(fail: Option<FailBit>)
      modifies this
      ensures failed == old(failed) + Raised(fail) && root == old(root)
    {
      if fail.Some? {
        ToggleState(fail.value);
      }
    }

    /** operator=: an object replaces the held value; anything else raises JSON_WAS_NOT_OBJECT and keeps it. */
    method Assign(jobj: Json)
      requires Valid()
      modifies this
      ensures Valid()
      ensures jobj.JObject? ==> root == jobj && failed == old(failed)
      ensures !jobj.JObject? ==> root == old(root) && failed == old(failed) + {JsonWasNotObject}
    {
      if jobj.JObject? {
        root := jobj;
      } else {
        ToggleState(JsonWasNotObject);
      }
    }

    /** apply: the failure bit is raised, or reset away when errors are suppressed. */
    method Apply(dest: Json, keys: seq<string>, suppressErrors: bool) returns (newDest: Json)
      modifies this
      ensures newDest == ApplyOutcome(root, keys, dest).dest && root == old(root)
      ensures ApplyOutcome(root, keys, dest).fail.None? ==> failed == old(failed)
      ensures ApplyOutcome(root, keys, dest).fail.Some? ==>
        failed == if suppressErrors then {} else old(failed) + Raised(ApplyOutcome(root, keys, dest).fail)
    {
      newDest := dest;
      if keys == [] {
        ToggleState(NoKeysGiven);
      } else {
        var test := KeysExist(root, keys);
        if test.Some? {
          if EqualType(dest, test.value) {
            newDest := Convert(dest, test.value);
            return;
          } else {
            ToggleState(MismatchingType);
          }
        } else {
          ToggleState(KeysDidNotExist);
        }
      }
      if suppressErrors {
        ResetState();
      }
    }

    /** applyArray: the elements are checked in order and copied only after the last one passes. */
    method ApplyArray(dest: seq<Json>, keys: seq<string>) returns (newDest: seq<Json>)
      modifies this
      ensures newDest == ApplyArrayOutcome(root, keys, dest).dest && root == old(root)
      ensures failed == old(failed) + Raised(ApplyArrayOutcome(root, keys, dest).fail)
    {
      newDest := dest;
      if |dest| == 0 {
        return;
      }
      if keys == [] {
        ToggleState(NoKeysGiven);
        return;
      }
      var test := KeysExist(root, keys);
      if test.None? {
        ToggleState(KeysDidNotExist);
      } else if !test.value.JArray? {
        ToggleState(MismatchingType);
      } else if |test.value.elems| != |dest| {
        ToggleState(MismatchingSize);
      } else {
        var elems := test.value.elems;
        var i := 0;
        while i < |dest|
          invariant 0 <= i <= |dest|
          invariant forall k :: 0 <= k < i ==> EqualType(dest[0], elems[k])
          invariant failed == old(failed) && root == old(root)
          invariant newDest == dest
        {
          if !EqualType(dest[0], elems[i]) {
            ToggleState(MismatchingElementType);
            return;
          }
          i := i + 1;
        }
        newDest := ConvertAll(dest[0], elems);
      }
    }

    /** applyVector: the vector is cleared and refilled only after the last element passes. */
    method ApplyVector(dest: seq<Json>, keys: seq<string>, template: Json) returns (newDest: seq<Json>)
      modifies this
      ensures newDest == ApplyVectorOutcome(root, keys, dest, template).dest && root == old(root)
      ensures failed == old(failed) + Raised(ApplyVectorOutcome(root, keys, dest, template).fail)
    {
      newDest := dest;
      if keys == [] {
        ToggleState(NoKeysGiven);
        return;
      }
      var test := KeysExist(root, keys);
      if test.None? {
        ToggleState(KeysDidNotExist);
      } else if !test.value.JArray? {
        ToggleState(MismatchingType);
      } else {
        var elems := test.value.elems;
        var i := 0;
        while i < |elems|
          invariant 0 <= i <= |elems|
          invariant forall k :: 0 <= k < i ==> EqualType(template, elems[k])
          invariant failed == old(failed) && root == old(root)
          invariant newDest == dest
        {
          if !EqualType(template, elems[i]) {
            ToggleState(MismatchingElementType);
            return;
          }
          i := i + 1;
        }
        if |elems| > 0 {
          newDest := ConvertAll(template, elems);
        }
      }
    }

    /**
     * applyColour: reads four unsigned components (defaults 0, 0, 0, 255).
     * The destination is written only when the object is in a good state
     * afterwards, so an earlier unreset failure also keeps it; with errors
     * suppressed that state is then reset. Each component is cast to 8 bits.
     */
    method ApplyColour(dest: Colour, keys: seq<string>, suppressErrors: bool) returns (newDest: Colour)
      modifies this
      ensures root == old(root)
      ensures var o := ApplyArrayOutcome(root, keys, DefaultColourComponents());
        if old(failed) + Raised(o.fail) == {} then
          newDest == ColourOf(o.dest) && failed == {}
        else
          newDest == dest && failed == if suppressErrors then {} else old(failed) + Raised(o.fail)
    {
      var colour := ApplyArray(DefaultColourComponents(), keys);
      if !InGoodState() {
        if suppressErrors {
          ResetState();
        }
        newDest := dest;
      } else {
        newDest := ColourOf(colour);
      }
    }

    /**
     * _performInitialChecks: no keys raise NO_KEYS_GIVEN; missing keys raise
     * KEYS_DID_NOT_EXIST only for a field that is not optional; an
     * incompatible value raises MISMATCHING_TYPE. The value found is written
     * to test whenever the keys exist.
     */
    method PerformInitialChecks(keys: seq<string>, test: Json, dest: Json, optional: bool) returns (ok: bool, newTest: Json)
      modifies this
      ensures root == old(root)
      ensures ok <==> KeysExist(root, keys).Some? && EqualType(dest, KeysExist(root, keys).value)
      ensures newTest == if KeysExist(root, keys).Some? then KeysExist(root, keys).value else test
      ensures failed == old(failed) + Raised(InitialChecksFailure(root, keys, dest, optional))
    {
      newTest := test;
      ok := false;
      if keys == [] {
        ToggleState(NoKeysGiven);
      } else {
        var found := KeysExist(root, keys);
        if found.Some? {
          newTest := found.value;
          if EqualType(dest, found.value) {
            ok := true;
          } else {
            ToggleState(MismatchingType);
          }
        } else if !optional {
          ToggleState(KeysDidNotExist);
        }
      }
    }
  }

  /** The components applyColour starts from: 0, 0, 0, 255 as unsigned values. */
  function DefaultColourComponents(): seq<Json>
  {
    [JUnsigned(0), JUnsigned(0), JUnsigned(0), JUnsigned(255)]
  }

  /** sf::Color built from four unsigned components, each truncated to 8 bits. */
  function ColourOf(c: seq<Json>): (r: Colour)
    ensures r.r < 256 && r.g < 256 && r.b < 256 && r.a < 256
  {
    if |c| == 4 && c[0].JUnsigned? && c[1].JUnsigned? && c[2].JUnsigned? && c[3].JUnsigned?
    then Colour(c[0].u % 256, c[1].u % 256, c[2].u % 256, c[3].u % 256)
    else Colour(0, 0, 0, 255)
  }

  /** The bit _performInitialChecks raises (None for none). */
  function InitialChecksFailure(root: Json, keys: seq<string>, dest: Json, optional: bool): (b: Option<FailBit>)
    ensures b.None? <==>
      (keys != [] && (KeysExist(root, keys).Some? ==> EqualType(dest, KeysExist(root, keys).value))
       && (KeysExist(root, keys).None? ==> optional))
    ensures keys == [] ==> b == Some(NoKeysGiven)
  {
    if keys == [] then Some(NoKeysGiven)
    else if KeysExist(root, keys).Some? then
      if EqualType(dest, KeysExist(root, keys).value) then None else Some(MismatchingType)
    else if optional then None
    else Some(KeysDidNotExist)
  }

  /** A successful colour read gives the four components as read, each cut to 8 bits. */
  lemma ApplyColourComponents(root: Json, keys: seq<string>, r: nat, g: nat, b: nat, a: nat)
    requires KeysExist(root, keys) == Some(JArray([JUnsigned(r), JUnsigned(g), JUnsigned(b), JUnsigned(a)]))
    ensures ApplyArrayOutcome(root, keys, DefaultColourComponents()).fail.None?
    ensures ColourOf(ApplyArrayOutcome(root, keys, DefaultColourComponents()).dest) == Colour(r % 256, g % 256, b % 256, a % 256)
  {
    var elems := [JUnsigned(r), JUnsigned(g), JUnsigned(b), JUnsigned(a)];
    assert AllCompatible(JUnsigned(0), elems);
  }
}
