/**
 * Helpers the script engine registers for its value types: the primitive
 * type-ID table, the unsigned Vector2 string conversions, the mixed
 * signed/unsigned Vector2 comparisons and the Colour constructor.
 */
module ScriptTypes {
  import opened Wrappers
  import opened Text
  import opened Integers

  const INT64_MIN: int := -0x8000_0000_0000_0000
  const INT64_MAX: int := 0x7FFF_FFFF_FFFF_FFFF

  /** sf::Vector2i and sf::Vector2u. */
  datatype Vector2i = Vector2i(x: Int32, y: Int32)
  datatype Vector2u = Vector2u(x: UInt32, y: UInt32)

  /** sf::Color. */
  datatype Colour = Colour(r: UInt8, g: UInt8, b: UInt8, a: UInt8)

  // ------------------------------------------------------------------
  // Primitive type IDs
  // ------------------------------------------------------------------

  /**
   * The type ID of a declaration. The twelve primitive names are handled by
   * the table; any other name is looked up in the script engine, whose
   * answer is the parameter engineTypeID (None when it knows no such type).
   */
  function GetTypeID(typeName: string, engineTypeID: Option<int>): (r: int)
    ensures typeName == "int" || typeName == "int32" ==> r == 4
    ensures typeName == "uint" || typeName == "uint32" ==> r == 8
    ensures !IsPrimitiveName(typeName) && engineTypeID.None? ==> r == -1
  {
    if typeName == "void" then 0
    else if typeName == "bool" then 1
    else if typeName == "int8" then 2
    else if typeName == "int16" then 3
    else if typeName == "int" || typeName == "int32" then 4
    else if typeName == "int64" then 5
    else if typeName == "uint8" then 6
    else if typeName == "uint16" then 7
    else if typeName == "uint" || typeName == "uint32" then 8
    else if typeName == "uint64" then 9
    else if typeName == "float" then 10
    else if typeName == "double" then 11
    else if engineTypeID.Some? then engineTypeID.value
    else -1
  }

  /** The names the table recognises, aliases included. */
  predicate IsPrimitiveName(typeName: string)
  {
    typeName in {"void", "bool", "int8", "int16", "int", "int32", "int64",
                 "uint8", "uint16", "uint", "uint32", "uint64", "float", "double"}
  }

  /**
   * The name of a type ID: the canonical primitive name for 0..11, otherwise
   * the script engine's name for it (engineName), or "" when it has none.
   */
  function GetTypeName(id: int, engineName: Option<string>): (r: string)
    ensures 0 <= id < 12 ==> IsPrimitiveName(r)
    ensures id == 4 ==> r == "int"
    ensures id == 8 ==> r == "uint"
    ensures (id < 0 || id >= 12) && engineName.None? ==> r == ""
  {
    if id == 0 then "void"
    else if id == 1 then "bool"
    else if id == 2 then "int8"
    else if id == 3 then "int16"
    else if id == 4 then "int"
    else if id == 5 then "int64"
    else if id == 6 then "uint8"
    else if id == 7 then "uint16"
    else if id == 8 then "uint"
    else if id == 9 then "uint64"
    else if id == 10 then "float"
    else if id == 11 then "double"
    else if engineName.Some? then engineName.value
    else ""
  }

  /** Every primitive name is looked up in the table, never in the engine. */
  lemma PrimitiveIDsInTable(typeName: string, e1: Option<int>, e2: Option<int>)
    requires IsPrimitiveName(typeName)
    ensures 0 <= GetTypeID(typeName, e1) < 12
    ensures GetTypeID(typeName, e1) == GetTypeID(typeName, e2)
  {
  }

  /** For every primitive ID, the name it prints maps back to the same ID. */
  lemma TypeIDRoundTrip(id: int, engineName: Option<string>, engineTypeID: Option<int>)
    requires 0 <= id < 12
    ensures GetTypeID(GetTypeName(id, engineName), engineTypeID) == id
  {
  }

  // ------------------------------------------------------------------
  // Decimal digits and std::stoll
  // ------------------------------------------------------------------

  function DigitChar(d: nat): (c: char)
    requires d < 10
    ensures IsDigit(c) && c as int - '0' as int == d
  {
    ('0' as int + d) as char
  }

  /** std::to_string of a non-negative integer: its shortest decimal form. */
  function NatToString(n: nat): (s: string)
    ensures |s| > 0
    ensures forall i :: 0 <= i < |s| ==> IsDigit(s[i])
    ensures n > 0 ==> s[0] != '0'
  {
    if n < 10 then [DigitChar(n)] else NatToString(n / 10) + [DigitChar(n % 10)]
  }

  /** The value of a string of decimal digits. */
  function DigitsValue(ds: string): (v: nat)
    requires forall i :: 0 <= i < |ds| ==> IsDigit(ds[i])
  {
    if ds == [] then 0
    else
      assert IsDigit(ds[|ds| - 1]);
      DigitsValue(ds[..|ds| - 1]) * 10 + (ds[|ds| - 1] as int - '0' as int)
  }

  /** The length of the run of digits a string starts with. */
  function DigitRun(s: string): (n: nat)
    ensures n <= |s|
    ensures forall i :: 0 <= i < n ==> IsDigit(s[i])
    ensures n < |s| ==> !IsDigit(s[n])
  {
    if s != [] && IsDigit(s[0]) then 1 + DigitRun(s[1..]) else 0
  }

  /**
   * std::stoll: white space, an optional sign, then the longest run of
   * digits. None stands for the exceptions: invalid_argument when there is
   * no digit, out_of_range when the value does not fit in a long long.
   */
  function Stoll(s: string): (r: Option<int>)
    ensures r.Some? ==> INT64_MIN <= r.value <= INT64_MAX
  {
    var t := TrimStart(s);
    if t != [] && t[0] == '-' then StollUnsigned(t[1..], true)
    else if t != [] && t[0] == '+' then StollUnsigned(t[1..], false)
    else StollUnsigned(t, false)
  }

  /** The part of stoll after the white space and the sign. */
  function StollUnsigned(u: string, negative: bool): (r: Option<int>)
    ensures r.Some? ==> INT64_MIN <= r.value <= INT64_MAX
  {
    var n := DigitRun(u);
    if n == 0 then None
    else
      var v: int := if negative then 0 - DigitsValue(u[..n]) else DigitsValue(u[..n]);
      if INT64_MIN <= v <= INT64_MAX then Some(v) else None
  }

  // ------------------------------------------------------------------
  // std::string::find and substr
  // ------------------------------------------------------------------

  /** std::string::find of one character; None stands for npos. */
  function Find(s: string, c: char): (r: Option<nat>)
    ensures r.Some? ==> r.value < |s| && s[r.value] == c
    ensures r.Some? ==> forall j :: 0 <= j < r.value ==> s[j] != c
    ensures r.None? ==> c !in s
  {
    if s == [] then None
    else if s[0] == c then Some(0)
    else
      var t := Find(s[1..], c);
      if t.Some? then Some(t.value + 1) else None
  }

  /** std::string::substr(pos, count), count None being npos; None is out_of_range. */
  function Substr(s: string, pos: nat, count: Option<nat>): (r: Option<string>)
    ensures r.None? <==> pos > |s|
    ensures r.Some? ==> r.value == s[pos..if count.None? || pos + count.value > |s| then |s| else pos + count.value]
  {
    if pos > |s| then None
    else if count.None? || pos + count.value > |s| then Some(s[pos..])
    else Some(s[pos..pos + count.value])
  }

  // ------------------------------------------------------------------
  // Vector2 string conversions
  // ------------------------------------------------------------------

  /** AWEVector2TypeToString: "(x, y)". */
  function Vector2ToString(v: Vector2u): (s: string)
    ensures |s| >= 6 && s[0] == '(' && s[|s| - 1] == ')'
  {
    "(" + NatToString(v.x) + ", " + NatToString(v.y) + ")"
  }

  /**
   * AWEVector2TypeConstructFromString. x is read by stoll from the substring
   * that starts at index 1 and is as long as the index of the first ','; y
   * from the substring after that ',' (npos + 1 wraps to 0 when there is
   * none) as long as the index of the first ')'. Each value is then cast to
   * unsigned int. None stands for an exception from substr or stoll.
   */
  function Vector2FromString(s: string): (r: Option<Vector2u>)
    ensures |s| < 2 ==> r.None?
  {
    var comma := Find(s, ',');
    var xs := Substr(s, 1, comma);
    var ys := Substr(s, if comma.Some? then comma.value + 1 else 0, Find(s, ')'));
    assert |s| < 2 && xs.Some? ==> xs.value == [];
    StollRejectsEmpty();
    if xs.None? || ys.None? then None
    else
      var x := Stoll(xs.value);
      var y := Stoll(ys.value);
      if x.None? || y.None? then None
      else Some(Vector2u(ToUnsigned(x.value), ToUnsigned(y.value)))
  }

  /** stoll of the empty string throws invalid_argument. */
  lemma StollRejectsEmpty()
    ensures Stoll([]) == None
  {
  }

  lemma {:induction false} DigitsValueOfNatToString(n: nat)
    ensures DigitsValue(NatToString(n)) == n
  {
    var s := NatToString(n);
    if n >= 10 {
      DigitsValueOfNatToString(n / 10);
      assert s[..|s| - 1] == NatToString(n / 10);
    }
  }

  lemma {:induction false} DigitRunOfDigits(ds: string, rest: string)
    requires forall i :: 0 <= i < |ds| ==> IsDigit(ds[i])
    requires rest == [] || !IsDigit(rest[0])
    ensures DigitRun(ds + rest) == |ds|
  {
    if ds != [] {
      assert (ds + rest)[1..] == ds[1..] + rest;
      DigitRunOfDigits(ds[1..], rest);
    }
  }

  /** Decimal strings that fit a long long are read back by stoll, past any trailing non-digit. */
  lemma StollOfNatToString(pre: string, n: nat, rest: string)
    requires n <= INT64_MAX
    requires forall i :: 0 <= i < |pre| ==> IsSpace(pre[i])
    requires rest == [] || !IsDigit(rest[0])
    ensures Stoll(pre + NatToString(n) + rest) == Some(n)
  {
    var ds := NatToString(n);
    var t := ds + rest;
    var whole := pre + t;
    assert pre + ds + rest == whole;
    assert t[0] == ds[0];
    SkipSpaceOfSpaces(pre, t);
    StollOfTrimmed(whole, t);
    StollUnsignedOfNatToString(n, rest);
  }

  lemma StollOfTrimmed(s: string, t: string)
    requires TrimStart(s) == t
    requires t != [] && IsDigit(t[0])
    ensures Stoll(s) == StollUnsigned(t, false)
  {
  }

  lemma StollUnsignedOfNatToString(n: nat, rest: string)
    requires n <= INT64_MAX
    requires rest == [] || !IsDigit(rest[0])
    ensures StollUnsigned(NatToString(n) + rest, false) == Some(n)
  {
    var ds := NatToString(n);
    var t := ds + rest;
    assert DigitRun(t) == |ds| by {
      DigitRunOfDigits(ds, rest);
    }
    assert t[..|ds|] == ds;
    DigitsValueOfNatToString(n);
  }

  lemma {:induction false} SkipSpaceOfSpaces(pre: string, t: string)
    requires forall i :: 0 <= i < |pre| ==> IsSpace(pre[i])
    requires t != [] && IsDigit(t[0])
    ensures TrimStart(pre + t) == t
  {
    if pre == [] {
      assert pre + t == t;
      assert !IsSpace(t[0]);
    } else {
      assert (pre + t)[0] == pre[0] && IsSpace(pre[0]);
      assert (pre + t)[1..] == pre[1..] + t;
      SkipSpaceOfSpaces(pre[1..], t);
    }
  }

  /** Find returns the index of the first occurrence. */
  lemma FindFirst(s: string, c: char, k: nat)
    requires k < |s| && s[k] == c
    requires forall j :: 0 <= j < k ==> s[j] != c
    ensures Find(s, c) == Some(k)
  {
  }

  /** The characters of "(" + xs + ", " + ys + ")", position by position. */
  lemma PrintedAt(xs: string, ys: string, j: nat)
    requires j < |xs| + |ys| + 4
    ensures var s := "(" + xs + ", " + ys + ")";
      s[j] == if j == 0 then '(' else if j <= |xs| then xs[j - 1] else if j == |xs| + 1 then ','
        else if j == |xs| + 2 then ' ' else if j < |xs| + |ys| + 3 then ys[j - |xs| - 3] else ')'
  {
    var a := "(" + xs;
    var b := a + ", ";
    var c := b + ys;
    if j < |a| {
      assert (c + ")")[j] == c[j] == b[j] == a[j];
    } else if j < |b| {
      assert (c + ")")[j] == c[j] == b[j];
    } else if j < |c| {
      assert (c + ")")[j] == c[j] == ys[j - |b|];
    }
  }

  /** Where the ',' and the ')' of a printed vector are. */
  lemma Vector2Separators(s: string, xs: string, ys: string)
    requires s == "(" + xs + ", " + ys + ")"
    requires forall i :: 0 <= i < |xs| ==> IsDigit(xs[i])
    requires forall i :: 0 <= i < |ys| ==> IsDigit(ys[i])
    ensures Find(s, ',') == Some(1 + |xs|)
    ensures Find(s, ')') == Some(|s| - 1)
  {
    var c := 1 + |xs|;
    PrintedAt(xs, ys, c);
    forall j | 0 <= j < c ensures s[j] != ',' {
      PrintedAt(xs, ys, j);
    }
    FindFirst(s, ',', c);
    PrintedAt(xs, ys, |s| - 1);
    forall j | 0 <= j < |s| - 1 ensures s[j] != ')' {
      PrintedAt(xs, ys, j);
    }
    FindFirst(s, ')', |s| - 1);
  }

  /** Printing a Vector2u and constructing one from the text gives back the same vector. */
  lemma Vector2RoundTrip(v: Vector2u)
    ensures Vector2FromString(Vector2ToString(v)) == Some(v)
  {
    var xs, ys := NatToString(v.x), NatToString(v.y);
    var s := Vector2ToString(v);
    var c := 1 + |xs|;
    assert Find(s, ',') == Some(c) && Find(s, ')') == Some(|s| - 1) by {
      Vector2Separators(s, xs, ys);
    }
    PrintedPieces(s, xs, ys);
    assert Stoll(xs + ",") == Some(v.x) by {
      StollOfNatToString([], v.x, ",");
      assert [] + xs + "," == xs + ",";
    }
    assert Stoll(" " + ys + ")") == Some(v.y) by {
      StollOfNatToString(" ", v.y, ")");
    }
    Vector2FromStringSteps(s, c, xs + ",", " " + ys + ")", v.x, v.y);
  }

  /** The two substrings Vector2FromString hands to stoll, for a printed vector. */
  lemma PrintedPieces(s: string, xs: string, ys: string)
    requires s == "(" + xs + ", " + ys + ")"
    ensures Substr(s, 1, Some(1 + |xs|)) == Some(xs + ",")
    ensures Substr(s, |xs| + 2, Some(|s| - 1)) == Some(" " + ys + ")")
  {
    var c := 1 + |xs|;
    assert s[1..c + 1] == xs + ",";
    var front := "(" + xs + ",";
    assert s == front + (" " + ys + ")");
    assert s[c + 1..] == " " + ys + ")";
  }

  /** Vector2FromString, given the outcome of each of its steps. */
  lemma Vector2FromStringSteps(s: string, c: nat, xs: string, ys: string, x: UInt32, y: UInt32)
    requires Find(s, ',') == Some(c)
    requires Substr(s, 1, Some(c)) == Some(xs)
    requires Substr(s, c + 1, Find(s, ')')) == Some(ys)
    requires Stoll(xs) == Some(x) && Stoll(ys) == Some(y)
    ensures Vector2FromString(s) == Some(Vector2u(x, y))
  {
  }

  // ------------------------------------------------------------------
  // Mixed Vector2 comparisons and the Colour constructor
  // ------------------------------------------------------------------

  /** iEqI: component-wise equality of two signed vectors. */
  function IEqI(lhs: Vector2i, rhs: Vector2i): bool { lhs.x == rhs.x && lhs.y == rhs.y }

  /** iEqU: the signed components are converted to unsigned before comparing. */
  function IEqU(lhs: Vector2i, rhs: Vector2u): (r: bool)
    ensures r <==> rhs.x == (if lhs.x < 0 then lhs.x + UINT32_LIMIT else lhs.x) &&
                   rhs.y == (if lhs.y < 0 then lhs.y + UINT32_LIMIT else lhs.y)
  {
    ToUnsigned(lhs.x) == rhs.x && ToUnsigned(lhs.y) == rhs.y
  }

  /** uEqI: the right-hand signed components are converted to unsigned before comparing. */
  function UEqI(lhs: Vector2u, rhs: Vector2i): bool
  {
    lhs.x == ToUnsigned(rhs.x) && lhs.y == ToUnsigned(rhs.y)
  }

  /** uEqU: component-wise equality of two unsigned vectors. */
  function UEqU(lhs: Vector2u, rhs: Vector2u): bool { lhs.x == rhs.x && lhs.y == rhs.y }

  /** A signed component equals an unsigned one when the values agree or the signed one is its wraparound. */
  predicate SameUnderConversion(i: Int32, u: UInt32)
  {
    i == u || i == u - UINT32_LIMIT
  }

  /** iEqU holds exactly when both components agree under the C++ signed-to-unsigned conversion. */
  lemma IEqUMeaning(lhs: Vector2i, rhs: Vector2u)
    ensures IEqU(lhs, rhs) <==> SameUnderConversion(lhs.x, rhs.x) && SameUnderConversion(lhs.y, rhs.y)
  {
  }

  /** The two mixed comparisons agree with each other, whichever side the signed vector is on. */
  lemma MixedComparisonsSymmetric(i: Vector2i, u: Vector2u)
    ensures IEqU(i, u) <==> UEqI(u, i)
  {
  }

  /** A negative signed vector equals its unsigned wraparound. */
  lemma NegativeEqualsWraparound()
    ensures IEqU(Vector2i(-1, -2), Vector2u(0xFFFF_FFFF, 0xFFFF_FFFE))
    ensures !IEqI(Vector2i(-1, 0), Vector2i(1, 0))
  {
  }

  /** The uint8 cast of an int: reduction modulo 256. */
  function ToUInt8(v: Int32): (r: UInt8)
    ensures 0 <= v < 256 ==> r == v
    ensures (r - v) % 256 == 0
  {
    v % 256
  }

  /** AWEColourTypeConstructor: every int component is truncated to uint8. */
  function ColourConstruct(r: Int32, g: Int32, b: Int32, a: Int32): (c: Colour)
    ensures (c.r - r) % 256 == 0 && (c.g - g) % 256 == 0
    ensures (c.b - b) % 256 == 0 && (c.a - a) % 256 == 0
    ensures 0 <= r < 256 && 0 <= g < 256 && 0 <= b < 256 && 0 <= a < 256 ==> c == Colour(r, g, b, a)
  {
    Colour(ToUInt8(r), ToUInt8(g), ToUInt8(b), ToUInt8(a))
  }
}
