/**
 * Log levels of the logging facade and their string forms: the strings
 * accepted when a level is read from configuration, and the one printed
 * for each level.
 */
module LogLevels {
  import opened Wrappers
  import opened Text

  /** The six log levels, from most to least verbose. */
  datatype Level = Trace | Debug | Info | Warn | Err | Critical

  /** The accepted spellings of each level: its name, its abbreviations and its digit. */
  function Spellings(l: Level): set<string>
  {
    match l
    case Trace => {"trace", "0"}
    case Debug => {"debug", "dbg", "1"}
    case Info => {"info", "inf", "2"}
    case Warn => {"warn", "wrn", "3"}
    case Err => {"error", "err", "4"}
    case Critical => {"critical", "crit", "5"}
  }

  /** No string is a spelling of two different levels, so the lookup table is unambiguous. */
  lemma SpellingsDisjoint(l1: Level, l2: Level, s: string)
    requires s in Spellings(l1) && s in Spellings(l2)
    ensures l1 == l2
  {
  }

  /**
   * Parses a level, case-insensitively. None stands for the invalid_argument
   * exception thrown for every other string (its message is not modelled).
   */
  function LevelFromString(lvl: string): (r: Option<Level>)
    ensures r.Some? ==> ToLower(lvl) in Spellings(r.value)
    ensures r.None? ==> forall l: Level :: ToLower(lvl) !in Spellings(l)
  {
    var l := ToLower(lvl);
    if l in Spellings(Trace) then Some(Trace)
    else if l in Spellings(Debug) then Some(Debug)
    else if l in Spellings(Info) then Some(Info)
    else if l in Spellings(Warn) then Some(Warn)
    else if l in Spellings(Err) then Some(Err)
    else if l in Spellings(Critical) then Some(Critical)
    else None
  }

  /** The descriptor printed for a level. */
  function LevelToString(lvl: Level): (r: string)
    ensures r in Spellings(lvl)
    ensures ToLower(r) == r
  {
    match lvl
    case Trace => "trace"
    case Debug => "debug"
    case Info => "info"
    case Warn => "warn"
    case Err => "error"
    case Critical => "critical"
  }

  /** Matching ignores case: a string parses exactly as its lower-case form does. */
  lemma LevelFromStringCaseInsensitive(lvl: string)
    ensures LevelFromString(lvl) == LevelFromString(ToLower(lvl))
  {
    ToLowerIdempotent(lvl);
  }

  /** A string parses to a level exactly when its lower-case form is one of that level's spellings. */
  lemma LevelFromStringExact(lvl: string, l: Level)
    ensures LevelFromString(lvl) == Some(l) <==> ToLower(lvl) in Spellings(l)
  {
    if ToLower(lvl) in Spellings(l) {
      var r := LevelFromString(lvl);
      assert r.Some?;
      SpellingsDisjoint(l, r.value, ToLower(lvl));
    }
  }

  /** Printing a level and parsing it back yields the same level. */
  lemma LevelRoundTrip(l: Level)
    ensures LevelFromString(LevelToString(l)) == Some(l)
  {
    LevelFromStringExact(LevelToString(l), l);
  }

  /** Upper-case spellings are accepted too. */
  lemma UpperCaseAccepted()
    ensures LevelFromString("CRIT") == Some(Critical)
    ensures LevelFromString("Warn") == Some(Warn)
    ensures LevelFromString("verbose") == None
  {
    ToLowerIs("CRIT", "crit");
    LevelFromStringExact("CRIT", Critical);
    ToLowerIs("Warn", "warn");
    LevelFromStringExact("Warn", Warn);
    ToLowerIs("verbose", "verbose");
    assert forall l: Level :: "verbose" !in Spellings(l);
  }
}
