/**
 * Variable insertion into translated strings (expand_string) and the
 * look-up of one language's string map (language::get).
 *
 * Variables are given already streamed to text: insertion only decides
 * where each one goes.
 */
module Language {

  /** The default var char. */
  const DEFAULT_VAR_CHAR: char := '#'

  /** The character that marks a native string as not to be translated. */
  const TRANSLATION_OVERRIDE: char := '~'

  /**
   * expand_string::insert. While variables remain, a lone var char is
   * replaced by the next variable and a pair of var chars becomes one
   * literal var char, scanning resuming after the pair. Once the variables
   * are used up the rest of the string is copied verbatim.
   */
  function Insert(original: string, vars: seq<string>, varChar: char): (r: string)
    ensures forall c :: c in r ==> c in original || exists i :: 0 <= i < |vars| && c in vars[i]
    decreases |original|
  {
    if vars == [] || original == [] then original
    else if original[0] != varChar then [original[0]] + Insert(original[1..], vars, varChar)
    else if |original| > 1 && original[1] == varChar then [varChar] + Insert(original[2..], vars, varChar)
    else vars[0] + Insert(original[1..], vars[1..], varChar)
  }

  /** The number of var chars in a string that take a variable when enough variables are given. */
  function Placeholders(s: string, varChar: char): nat
    decreases |s|
  {
    if s == [] then 0
    else if s[0] != varChar then Placeholders(s[1..], varChar)
    else if |s| > 1 && s[1] == varChar then Placeholders(s[2..], varChar)
    else 1 + Placeholders(s[1..], varChar)
  }

  /** Without variables the string is returned verbatim, var chars included. */
  lemma InsertNoVariables(s: string, varChar: char)
    ensures Insert(s, [], varChar) == s
  {
  }

  /** Text without var chars is copied, whatever variables are given. */
  lemma {:induction false} InsertPlainText(s: string, vars: seq<string>, varChar: char)
    requires varChar !in s
    ensures Insert(s, vars, varChar) == s
  {
    if vars != [] && s != [] {
      InsertPlainText(s[1..], vars, varChar);
    }
  }

  /** Copies plain text ahead of the next var char while variables remain. */
  lemma {:induction false} InsertPrefix(a: string, b: string, vars: seq<string>, varChar: char)
    requires varChar !in a
    ensures Insert(a + b, vars, varChar) == a + Insert(b, vars, varChar)
  {
    if a == [] {
      assert a + b == b;
    } else if vars != [] {
      assert (a + b)[0] == a[0];
      assert (a + b)[1..] == a[1..] + b;
      InsertPrefix(a[1..], b, vars, varChar);
    }
  }

  /** A lone var char is replaced by the next variable, in order. */
  lemma LoneVarCharTakesNextVariable(a: string, b: string, v: string, vs: seq<string>, varChar: char)
    requires varChar !in a
    requires b == [] || b[0] != varChar
    ensures Insert(a + [varChar] + b, [v] + vs, varChar) == a + v + Insert(b, vs, varChar)
  {
    assert a + [varChar] + b == a + ([varChar] + b);
    InsertPrefix(a, [varChar] + b, [v] + vs, varChar);
    assert ([varChar] + b)[1..] == b;
  }

  /** Two adjacent var chars become one literal var char and no variable is used. */
  lemma DoubledVarCharIsLiteral(a: string, b: string, vars: seq<string>, varChar: char)
    requires varChar !in a
    requires vars != []
    ensures Insert(a + [varChar, varChar] + b, vars, varChar) == a + [varChar] + Insert(b, vars, varChar)
  {
    assert a + [varChar, varChar] + b == a + ([varChar, varChar] + b);
    InsertPrefix(a, [varChar, varChar] + b, vars, varChar);
    assert ([varChar, varChar] + b)[2..] == b;
  }

  /** Three var chars in a row give a literal var char followed by a variable. */
  lemma TripleVarChar(v: string, vs: seq<string>)
    ensures Insert("###", [v] + vs, '#') == "#" + v
  {
    DoubledVarCharIsLiteral([], "#", [v] + vs, '#');
    assert [] + ['#', '#'] + "#" == "###";
    assert Insert("#", [v] + vs, '#') == v + Insert([], vs, '#');
  }

  /**
   * Surplus variables are ignored: once there are more variables than
   * placeholders, the result depends only on the first Placeholders ones.
   */
  lemma {:induction false} SurplusVariablesIgnored(s: string, vars1: seq<string>, vars2: seq<string>, varChar: char)
    requires |vars1| > Placeholders(s, varChar) && |vars2| > Placeholders(s, varChar)
    requires vars1[..Placeholders(s, varChar)] == vars2[..Placeholders(s, varChar)]
    ensures Insert(s, vars1, varChar) == Insert(s, vars2, varChar)
    decreases |s|
  {
    var n := Placeholders(s, varChar);
    if s == [] {
    } else if s[0] != varChar {
      SurplusVariablesIgnored(s[1..], vars1, vars2, varChar);
    } else if |s| > 1 && s[1] == varChar {
      SurplusVariablesIgnored(s[2..], vars1, vars2, varChar);
    } else {
      assert vars1[0] == vars1[..n][0] == vars2[..n][0] == vars2[0];
      assert vars1[1..][..n - 1] == vars1[..n][1..];
      assert vars2[1..][..n - 1] == vars2[..n][1..];
      SurplusVariablesIgnored(s[1..], vars1[1..], vars2[1..], varChar);
    }
  }

  /** Surplus var chars stay literal: once the variables are used up the rest is copied verbatim. */
  lemma SurplusVarCharsLiteral(a: string, v: string, b: string, varChar: char)
    requires varChar !in a
    requires b == [] || b[0] != varChar
    ensures Insert(a + [varChar] + b, [v], varChar) == a + v + b
  {
    LoneVarCharTakesNextVariable(a, b, v, [], varChar);
    assert [v] + [] == [v];
  }

  /** The var char setting shared by every call to insert. */
  class VarCharSetting {
    var varChar: char

    constructor ()
      ensures varChar == DEFAULT_VAR_CHAR
    {
      varChar := DEFAULT_VAR_CHAR;
    }

    /** getVarChar. */
    function GetVarChar(): (c: char)
      reads this
      ensures c == varChar
    {
      varChar
    }

    /** setVarChar: a later getVarChar returns the new char. */
    method SetVarChar(c: char)
      modifies this
      ensures varChar == c
      ensures GetVarChar() == c
    {
      varChar := c;
    }
  }

  /**
   * language::get over one string map. A native string that starts with
   * the translation override is returned without that character and
   * without insertion; an unknown key gives "<error>", into which the
   * variables are inserted as into every other string.
   */
  function Get(strings: map<string, string>, nativeString: string, vars: seq<string>, varChar: char): (r: string)
    ensures |nativeString| > 0 && nativeString[0] == TRANSLATION_OVERRIDE ==> r == nativeString[1..]
  {
    if |nativeString| > 0 && nativeString[0] == TRANSLATION_OVERRIDE then nativeString[1..]
    else if nativeString in strings then Insert(strings[nativeString], vars, varChar)
    else Insert("<error>", vars, varChar)
  }

  /** An unknown key gives "<error>" unless the var char is one of its characters. */
  lemma GetUnknownKey(strings: map<string, string>, nativeString: string, vars: seq<string>, varChar: char)
    requires nativeString !in strings
    requires |nativeString| == 0 || nativeString[0] != TRANSLATION_OVERRIDE
    requires varChar !in "<error>"
    ensures Get(strings, nativeString, vars, varChar) == "<error>"
  {
    InsertPlainText("<error>", vars, varChar);
  }

  /** A known key gives its language string with the variables inserted. */
  lemma GetKnownKey(strings: map<string, string>, nativeString: string, vars: seq<string>, varChar: char)
    requires nativeString in strings
    requires |nativeString| == 0 || nativeString[0] != TRANSLATION_OVERRIDE
    ensures Get(strings, nativeString, vars, varChar) == Insert(strings[nativeString], vars, varChar)
  {
  }
}
