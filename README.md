# ComputerWars engine core in Dafny

This project models the core of ComputerWars, a turn-based strategy game
engine written in C++, and proves properties of that model. It covers the
following parts of the engine.

- **The map (`awe::map`).** The tile grid, the unit and army tables, the
  selected-unit stack, the selected tile and the rectangle selection.
  Every map operation is a function from the old map state to the new one
  (`MapData`, `MapUnits`, `MapArmies`, `MapMap`, `MapSelection`,
  `MapTiles`, `MapScripts`). Each comes with lemmas showing that it keeps
  the map consistent: units and tiles point at each other and loading is
  acyclic. The map object itself is a class over that state
  (`GameMaps.GameMap`), whose methods update it in place.
- **Map geometry and path finding.** Tile distances, bounds and the range
  queries (`MapGeometry`). The A* search `findPath` (`PathFinding`). The
  arrow sprites of the closed list (`ClosedList`).
- **Unit IDs and history.** The unit-ID allocator (`UnitIDs`). The
  undo/redo mementos (`MapMementos`).
- **Game data.** The first- and second-generation game property banks
  (`Banks`, `GameProperties`, `PropertyFields`, `Structures`). They are
  read through the engine's safe JSON layer, which records failures as
  error bits (`SafeJson`).
- **Engine helpers.**
  - Language string expansion (`Language`).
  - Log levels (`LogLevels`).
  - The script engine's value-type helpers (`ScriptTypes`).
  - The script model's interface registration (`ScriptModel`).
  - The MVC controller hierarchy (`Mvc`).
  - Dialogue boxes (`Dialogue`).
  - Animated sprites (`Texture`).
  - User input controls (`UserInput`).
  - The GUI's bookkeeping and signal handlers (`Gui`, `GuiSignalHandlers`,
    `MinimisedWindows`).
- **Shared modules.** Character, integer and option helpers (`Text`,
  `Integers`, `Wrappers`).

Fixed-width C++ integers are subtypes of `int`. The JSON layer reads
64-bit numbers, and each field reader narrows them to its field's 32-bit
width, modulo 2^32. Wrap-around is also written out in getAvailableTiles,
in the tile distance, in the unit-ID search and in the counters. Values the C++ keeps by value in its
containers (units, armies, tiles) are datatypes. Objects whose methods
update their fields in place are classes, proved against functions on
their state:
- animated sprites;
- dialogue boxes;
- the GUI;
- the memento history;
- the controllers;
- the script model;
- the lists of minimised windows;
- the map.

Loops in the source are methods with loop invariants, proved equal to a
specification function.

typedef.hpp is not part of this model. The model assumes the following
values from it:
- `UnitID` and `ArmyID` are 32-bit unsigned;
- `NO_UNIT` is 0 and `ID_OF_FIRST_UNIT` is 1;
- `NO_ARMY` is `0xFFFFFFFF`;
- `NO_POSITION` is `(UINT_MAX, UINT_MAX)`;
- `HP_GRANULARITY` is 10.

I/O and the clock are parameters of the operations that use them, and so
are:
- reading the keyboard, mouse and joystick;
- calls into the script engine;
- TGUI widget look-ups.

## Model

| member | source | states |
|---|---|---|
| Text.ToLower | log/Log.cpp:69 | every character is lower-cased in the C locale, nothing else changes |
| Text.ToLowerIdempotent | log/Log.cpp:69 | lower-casing twice is lower-casing once |
| Text.Trim | awe/include/bank-v2.hpp:786 | the string without the white space at either end |
| Text.TrimPadded | awe/include/bank-v2.hpp:786 | trimming a word padded with white space gives back exactly that word |
| Integers.ToUnsigned | awe/source/map/mapgraphics.cpp:233-248 | the value modulo 2^32, always in 0 .. 2^32-1, as a cast to unsigned int wraps |
| Integers.ToInt32 | engine/source/script.cpp:98-106 | the value modulo 2^32 read in two's complement, in the range of a 32-bit int |
| LogLevels.SpellingsDisjoint | log/Log.cpp:51-55 | no string is listed under two levels, so the lookup table is unambiguous |
| LogLevels.LevelFromString | log/Log.cpp:67-80 | a level is returned only when the lower-cased string is one of its spellings; none (the thrown invalid_argument) when it is no level's spelling |
| LogLevels.LevelToString | log/Log.cpp:60-63 | the printed name is one of the level's accepted spellings and is already lower case |
| LogLevels.LevelFromStringCaseInsensitive | log/Log.cpp:68-69 | a string parses exactly as its lower-case form does |
| LogLevels.LevelFromStringExact | log/Log.cpp:67-73 | a string parses to a level if and only if its lower-case form is one of that level's spellings |
| LogLevels.LevelRoundTrip | log/Log.cpp:60-85 | printing a level and parsing the result gives the level back |
| LogLevels.UpperCaseAccepted | log/Log.cpp:67-80 | "CRIT" parses as critical, "Warn" as warn, "verbose" is rejected |
| Language.InsertNoVariables | engine/source/language.cpp:36-46 | with no variables left the string is returned verbatim, var chars included |
| Language.InsertPlainText | engine/include/language.hpp:50-56 | a string without var chars is copied unchanged whatever variables are given |
| Language.InsertPrefix | engine/include/language.hpp:50-56 | text ahead of the first var char is copied and insertion continues after it |
| Language.LoneVarCharTakesNextVariable | engine/include/language.hpp:52-54 | a single var char is replaced by the next variable, and the rest uses the remaining variables |
| Language.DoubledVarCharIsLiteral | engine/include/language.hpp:57-59 | two adjacent var chars become one literal var char and consume no variable |
| Language.TripleVarChar | engine/include/language.hpp:59-61 | three var chars in a row give a literal var char followed by the next variable |
| Language.SurplusVariablesIgnored | engine/include/language.hpp:62-63 | variables beyond the number of placeholders do not affect the result |
| Language.SurplusVarCharsLiteral | engine/include/language.hpp:63-65 | once the variables are used up, later var chars are copied as ordinary characters |
| Language.Insert | engine/include/language.hpp:47-66 | every character of the result comes from the original string or from one of the variables |
| Language.VarCharSetting.constructor | engine/source/language.cpp:26 | the var char starts as '#' |
| Language.VarCharSetting.GetVarChar | engine/source/language.cpp:28-30 | returns the stored var char |
| Language.VarCharSetting.SetVarChar | engine/source/language.cpp:32-34 | a later getVarChar returns the char just set |
| Language.Get | engine/include/language.hpp:293-296 | a native string starting with the translation override is returned without that character and without insertion |
| Language.GetUnknownKey | engine/include/language.hpp:286-290 | an unknown key gives "<error>" whenever the var char is not one of its characters |
| Language.GetKnownKey | engine/include/language.hpp:283-286 | a known key gives its stored string with the variables inserted |
| UnitIDs.Succ | awe/source/map/map.cpp:466-470 | the next candidate is one up, and after the largest ID it is ID_OF_FIRST_UNIT; it is always a valid ID |
| UnitIDs.Steps | awe/source/map/map.cpp:465-470 | every valid ID is reached from the last one after between 1 and 2^32-1 steps of the search, the last ID itself only after a full lap |
| UnitIDs.IdAtSucc | awe/source/map/map.cpp:466-470 | one more step of the search is one more Succ |
| UnitIDs.ProbeStops | awe/source/map/map.cpp:466-470 | the search stops at the first free ID it meets, having passed only taken IDs, unless every ID is taken |
| UnitIDs.FullLap | awe/source/map/map.cpp:462-464 | if a full lap of the search meets only taken IDs, the table holds every ID, so the size guard rules the endless search out |
| UnitIDs.NextUnitID | awe/source/map/map.cpp:460-473 | the ID handed out, when there is one, is a valid unit ID |
| UnitIDs.NextUnitIDIsFirstFree | awe/source/map/map.cpp:465-472 | on a non-empty table that is not full the ID found is free, and every ID before it in the wrapping search order is taken |
| UnitIDs.NextUnitIDCases | awe/source/map/map.cpp:461-464 | allocation fails exactly when the table holds 2^32-2 units, and an empty table gets the last ID back |
| UnitIDs.FindUnitID | awe/source/map/map.cpp:460-473 | the loop returns what NextUnitID specifies (the corrected search, wrapping on the first step too) |
| UnitIDs.FindUnitIDAsWritten | awe/source/map/map.cpp:460-473 | the loop as written returns what NextUnitIDAsWritten specifies: it agrees with NextUnitID below the largest last ID, and returns NO_UNIT when the last ID is the largest and the table is neither empty nor full |
| UnitIDs.NextUnitIDAsWritten | awe/source/map/map.cpp:460-473 | the search as written agrees with the corrected NextUnitID whenever the last ID is valid and not the largest; an ID it hands out from a non-empty table is free and at most 2^32 - 1; it hands out NO_UNIT exactly for an empty table whose last ID is NO_UNIT, or for a non-empty, non-full table without NO_UNIT whose last ID is the largest |
| Structures.KeepFirstFresh | awe/source/bank.cpp:369-381 | every dependent kept has an offset not seen before it |
| Structures.KeepFirstDistinct | awe/source/bank.cpp:369-381 | no two kept dependents share an offset |
| Structures.KeepFirstOffsets | awe/source/bank.cpp:369-381 | the kept offsets are exactly the given ones minus those already seen |
| Structures.KeepFirstKeepsFirstOccurrence | awe/source/bank.cpp:378-381 | each kept dependent is the first one in the list with its offset |
| Structures.KeepFirstOfDistinct | awe/source/bank.cpp:369-381 | a list already free of repeated and of seen offsets is kept whole |
| Structures.KeepFirstIdempotent | awe/include/bank-v2.hpp:872-891 | removing the invalid dependents a second time changes nothing |
| Structures.KeepFirstConcat | awe/source/bank.cpp:371-388 | keeping over a concatenation continues on the second part with the offsets the first part used |
| Structures.ParseDependent | awe/source/bank.cpp:372-387 | an entry is accepted only if it is an object whose "tile" is that string; the offset is two integers, destroyed and deleted tiles default to "" |
| Structures.ParseDependents | awe/source/bank.cpp:366-389 | the loop yields no dependents unless "dependent" is an array, and otherwise exactly the well-formed entries whose offset is neither (0, 0) nor already taken, in order |
| Structures.NewStructure | awe/source/bank.cpp:348-389 | the root's three tiles are read from "root", and the dependents are those ParseDependents keeps, none when "dependent" is absent |
| Structures.ReadTile | awe/source/bank.cpp:355-359 | a root tile name is the string at the key path, or "" when the path is absent |
| Structures.ParsedDependentsValid | awe/source/bank.cpp:369-381 | the parsed dependents never sit at (0, 0), never repeat an offset, and cover every other offset given |
| Structures.AnyDependentHasTile | awe/source/bank.cpp:394-397 | true exactly when some dependent's tile, destroyed tile or deleted tile is the given type |
| Structures.ContainsTileType | awe/source/bank.cpp:391-399 | true exactly when one of the root's three tiles or of a dependent's tiles is the given type |
| Structures.SurvivingIsKeepFirst | awe/include/bank-v2.hpp:875-891 | deleting the marked indices keeps exactly the first dependent at each offset other than (0, 0) |
| Structures.RemoveInvalidDependents | awe/include/bank-v2.hpp:862-893 | an empty array is left alone, a non-paintable structure loses every dependent, and otherwise the two loops leave exactly KeepFirst of the dependents |
| SafeJson.Lookup | engine/source/safejson.cpp:110-121 | a value is found only if some member carries the key with that value, and nothing is found only if no member has the key |
| SafeJson.KeysExist | engine/source/safejson.cpp:123-127 | an empty key sequence never exists |
| SafeJson.KeyExistsConcat | engine/source/safejson.cpp:110-121 | looking a path up in two parts is looking up the whole path |
| SafeJson.KeyExistsOneKey | engine/source/safejson.cpp:110-121 | one key finds the object's member, and nothing resolves inside a value that is not an object |
| SafeJson.EqualTypeSameType | engine/source/safejson.cpp:131 | values of the same type are compatible |
| SafeJson.EqualTypeUnsignedOntoSigned | engine/source/safejson.cpp:132-138 | an unsigned value fits a signed destination if and only if it is at most INT_MAX |
| SafeJson.EqualTypeSignedOntoUnsigned | engine/source/safejson.cpp:129-146 | a signed value never fits an unsigned destination |
| SafeJson.EqualTypeIntegerOntoFloat | engine/source/safejson.cpp:139-141 | every integer fits a float destination |
| SafeJson.EqualTypeFloatOntoInteger | engine/source/safejson.cpp:142-145 | a float fits an integer destination if and only if its fraction is 0 |
| SafeJson.EqualTypeNonNumeric | engine/source/safejson.cpp:129-146 | outside the numbers a value is compatible if and only if the types are the same |
| SafeJson.Convert | engine/safejson.h:600 | a compatible value becomes a value of the destination's JSON type, the JSON library's 64-bit number, and a value already of that type is taken as it is; narrowing to a 32-bit field is left to the field's reader |
| SafeJson.FailBitsAreDistinctSingleBits | engine/include/safejson.hpp:60-120 | each fail bit is a single non-zero bit and no two share a bit |
| SafeJson.BitsOfEach | engine/include/safejson.hpp:60-120 | each of the eleven constants is set in the recorded sequence exactly when that failure was raised |
| SafeJson.BitsOfTest | engine/include/safejson.hpp:136-144 | testing the sequence against one constant tells whether that failure was raised |
| SafeJson.BitsOfSuccess | engine/include/safejson.hpp:60 | the sequence equals SUCCESS exactly when no failure was raised |
| SafeJson.ApplyOutcome | engine/safejson.h:588-619 | a failure leaves dest as it was; the read succeeds if and only if the keys exist and the types are compatible; no keys raise NO_KEYS_GIVEN, missing keys KEYS_DID_NOT_EXIST, an incompatible value MISMATCHING_TYPE |
| SafeJson.ConvertAll | engine/safejson.h:640-642 | each element is converted to the destination type, and the length is kept |
| SafeJson.ApplyArrayOutcome | engine/safejson.h:621-674 | a zero-length array is untouched; a failure leaves dest as it was and the length never changes; success needs an array of the same size whose elements are all compatible; no keys raise NO_KEYS_GIVEN |
| SafeJson.ApplyVectorOutcome | engine/safejson.h:676-716 | a failure leaves dest as it was; the vector changes only for a non-empty array whose elements are all compatible; no keys raise NO_KEYS_GIVEN |
| SafeJson.ApplyVectorEmptyArray | engine/safejson.h:688-704 | an empty JSON array leaves the vector as it was and raises nothing |
| SafeJson.QuotedListConcat | engine/source/safejson.cpp:153-163 | the list text of two joined key sequences is the two texts joined by ", " |
| SafeJson.SynthesiseKeySequence | engine/source/safejson.cpp:149-165 | the loop builds the braced, quoted, comma-separated list of keys ("" for none), which starts with '{' and ends with '}' |
| SafeJson.ConcatKeys | engine/source/safejson.cpp:167-171 | the parent keys followed by the child keys |
| SafeJson.ConcatKeysLookup | engine/source/safejson.cpp:167-171 | concatenated keys exist exactly when the parent keys exist and the child keys exist inside that value |
| SafeJson.JsonObject.constructor | engine/source/safejson.cpp:29-31 | a new object is empty and in a good state |
| SafeJson.JsonObject.InGoodState | engine/include/safejson.hpp:130-132 | true exactly when the bit sequence is SUCCESS |
| SafeJson.JsonObject.WhatFailed | engine/include/safejson.hpp:142-144 | a fail bit is set in the result exactly when that failure was raised |
| SafeJson.JsonObject.ResetState | engine/include/safejson.hpp:151-153 | clears every raised failure and keeps the value |
| SafeJson.JsonObject.ToggleState | engine/include/safejson.hpp:167-169 | ORs one bit in: that failure is raised and none is cleared |
| SafeJson.JsonObject.Assign | engine/source/safejson.cpp:88-109 | an object replaces the held value; anything else leaves it and raises JSON_WAS_NOT_OBJECT |
| SafeJson.JsonObject.Apply | engine/safejson.h:588-619 | dest becomes ApplyOutcome's value; its failure is raised, or every failure is reset when errors are suppressed |
| SafeJson.JsonObject.ApplyArray | engine/safejson.h:621-674 | the loop checks the elements in order and copies them only after the last one passes, as ApplyArrayOutcome says, raising its failure |
| SafeJson.JsonObject.ApplyVector | engine/safejson.h:676-716 | the vector is cleared and refilled only after the last element passes, as ApplyVectorOutcome says, raising its failure |
| SafeJson.JsonObject.ApplyColour | engine/source/safejson.cpp:173-184 | in a good state the colour is built from the four components read; otherwise dest is kept and the failures are kept or reset as errors are suppressed or not |
| SafeJson.JsonObject.PerformInitialChecks | engine/source/safejson.cpp:186-211 | succeeds if and only if the keys exist and the value is compatible; the value found is returned in test; the failure InitialChecksFailure names is raised |
| SafeJson.ColourOf | engine/source/safejson.cpp:182 | each colour component is below 256 |
| SafeJson.InitialChecksFailure | engine/source/safejson.cpp:186-211 | nothing is raised exactly when keys are given and the value found is compatible or, for an optional read, the keys are absent; no keys raise NO_KEYS_GIVEN |
| SafeJson.ApplyColourComponents | engine/source/safejson.cpp:173-184 | four unsigned components are read successfully and give the colour of those components cut to 8 bits |
| PropertyFields.HierarchyIndex | awe/include/bank-v2.hpp:65-88 | every property kind has a slot below GAME_PROPERTY_COUNT |
| PropertyFields.HierarchyIndexInjective | awe/include/bank-v2.hpp:65-88 | two kinds share a slot only if they are the same kind |
| PropertyFields.NoOverrides | awe/include/bank-v2.hpp:131 | a new overrides object has every slot empty |
| PropertyFields.OverridesEqual | awe/include/bank-v2.hpp:196-198 | true exactly when the ten slots agree one by one |
| PropertyFields.OverridesEqualIsEquality | awe/include/bank-v2.hpp:196-206 | slot-wise equality is equality of the keys, so values can be stored under them |
| PropertyFields.Sanitised | awe/include/bank-v2.hpp:434-440 | a slot below the field's index keeps its name exactly when that name was recorded for the slot; every other slot is empty |
| PropertyFields.SanitisedIdempotent | awe/include/bank-v2.hpp:434-440 | sanitising twice is sanitising once when every slot has recorded the empty name |
| PropertyFields.SanitisedNoOverrides | awe/include/bank-v2.hpp:403-440 | the key without overrides sanitises to itself |
| PropertyFields.Conclude | awe/include/bank-v2.hpp:283-289 | the reader succeeds if and only if nothing failed, or the keys were missing from an optional field; the state is reset either way |
| PropertyFields.FromJson | awe/include/bank-v2.hpp:278-290 | the value is what apply gives, and the result is the accepted-read verdict for the failures that apply raised |
| PropertyFields.ReadFromGoodState | awe/include/bank-v2.hpp:278-290 | from a good state a read is accepted if and only if the value was read, or the keys were missing and the field is optional |
| PropertyFields.ReadFromBadState | awe/include/bank-v2.hpp:283-289 | a reader that starts in a bad state without KEYS_DID_NOT_EXIST reports failure |
| PropertyFields.ColourFromJson | awe/include/bank-v2.hpp:292-305 | the colour changes only when applyColour left a good state, and the result is the accepted-read verdict |
| PropertyFields.Vector2FromJson | awe/include/bank-v2.hpp:306-324 | a two-element array is written into x and y only in a good state; otherwise the value is kept and the accepted-read verdict returned |
| PropertyFields.TimeFromJson | awe/include/bank-v2.hpp:325-348 | a failed read keeps the value; a count above INT32_MAX is refused and keeps it; any other count becomes the duration |
| PropertyFields.TimeLimit | awe/include/bank-v2.hpp:329-345 | an unsigned count stored at the keys is read as that count |
| PropertyFields.Resized | awe/include/bank-v2.hpp:371 | the array after Resize(n) has n elements, the old ones kept and the new ones default-constructed |
| PropertyFields.BankArrayFromJson | awe/include/bank-v2.hpp:349-392 | missing keys keep the value and succeed only for an optional field; a non-array fails; an empty array keeps the value; otherwise every element is read through its own object and the result is true exactly when every element was compatible |
| PropertyFields.PropertyField.constructor | awe/include/bank-v2.hpp:400-414 | every slot records the empty name, and the value under no overrides is the default replaced by the JSON value when that can be read |
| PropertyFields.PropertyField.Set | awe/include/bank-v2.hpp:415-420 | each slot below the index records the key's name, and the key then holds the value assigned |
| PropertyFields.PropertyField.Touch | awe/include/bank-v2.hpp:415-420 | each slot records the key's name; an existing key's value is returned unchanged, a missing key gets the value-initialised T |
| PropertyFields.PropertyField.Get | awe/include/bank-v2.hpp:421-432 | the exact key's value, else the sanitised key's, else the value with no overrides |
| PropertyFields.PropertyField.SanitiseFieldOverrides | awe/include/bank-v2.hpp:434-440 | the loop computes Sanitised over the recorded names |
| PropertyFields.GetAnswersFromStore | awe/include/bank-v2.hpp:421-432 | the const look-up never fails: it always answers with a stored value |
| PropertyFields.DisplayedHP | awe/include/bank-v2.hpp:751-754 | the displayed HP is the smallest r with hp <= 10r, that is hp / 10 rounded up |
| PropertyFields.InternalHP | awe/include/bank-v2.hpp:761-763 | the displayed HP times ten whenever the product fits an int, and it wraps otherwise |
| PropertyFields.HPRoundTrip | awe/include/bank-v2.hpp:751-763 | converting a displayed HP to internal and back gives it back whenever the product fits |
| PropertyFields.HPRoundUp | awe/include/bank-v2.hpp:751-763 | converting an internal HP to displayed and back rounds it up to the next multiple of ten |
| PropertyFields.ParseVisibility | awe/include/bank-v2.hpp:786-796 | a visibility is returned exactly when the trimmed, lower-cased name is its name; none otherwise |
| PropertyFields.VisibilityRoundTrip | awe/include/bank-v2.hpp:786-796 | each visibility's own name parses back to it |
| PropertyFields.VisibilityIgnoresCaseAndSpace | awe/include/bank-v2.hpp:786 | white space around the name and upper-case letters are ignored |
| PropertyFields.FowVisibilityFromJson | awe/include/bank-v2.hpp:779-803 | a failed read or an unknown name reports false and keeps the value; a known name is stored and reports true |
| PropertyFields.MissingVisibilityIsNormal | awe/include/bank-v2.hpp:783-784 | "Normal", the default the reader starts from, parses as Normal |
| Banks.ReadUnsigned | engine/safejson.h:588-619 | an unsigned int field keeps its value when the read fails, and otherwise takes the unsigned value found reduced modulo 2^32, as get<unsigned int>() narrows it |
| Banks.ReadSigned | engine/safejson.h:588-619 | an int field keeps its value when the read fails, takes a signed value found reduced modulo 2^32 into two's complement, and takes an unsigned value up to INT_MAX as it is |
| Banks.ReadBool | engine/safejson.h:588-619 | a boolean field keeps its value when the read fails and takes the value found otherwise |
| Banks.ReadString | engine/safejson.h:588-619 | a string field keeps its value when the read fails and takes the string found otherwise |
| Banks.InputOf | awe/bank.h:1029 | the JSON a bank entry's constructor sees is always an object, the member itself when it is one |
| Banks.Bank.constructor | awe/bank.h:1023-1025 | a new bank is empty |
| Banks.Bank.Get | awe/bank.h:1010-1015 | the entry with that ID, and a null pointer exactly when the ID is past the end |
| Banks.Bank.Size | awe/bank.h:1017-1020 | the number of entries stored |
| Banks.Bank.Load | awe/bank.h:1022-1034 | the loop always succeeds and leaves one entry per member, entry i constructed with ID i from member i |
| Banks.Bank.Save | awe/bank.h:1036-1038 | banks are never written back |
| Banks.CapToIntMax | awe/bank.cpp:131 | the smaller of the value and INT_MAX |
| Banks.NewTerrain | awe/bank.cpp:128-137 | the terrain carries its ID, and its maximum HP, held in an unsigned int, never exceeds INT_MAX |
| Banks.TerrainHPKept | awe/bank.cpp:130-131 | an "hp" whose value modulo 2^32 is at most INT_MAX gives that value, which for an hp up to INT_MAX is the hp as written |
| Banks.TerrainHPCapped | awe/bank.cpp:130-131 | an "hp" whose value modulo 2^32 exceeds INT_MAX becomes INT_MAX; below 2^32 that is every hp above INT_MAX |
| Banks.TerrainHPWraps | awe/bank.cpp:130-131 | an "hp" of 2^32 is read into the unsigned int field as 0 and one of 2^32 + 1 as 1, before the cap is applied |
| Banks.GetMoveCost | awe/bank.cpp:144-147 | -1 for a movement type past the list, the listed cost otherwise |
| Banks.GetTerrainPicture | awe/bank.cpp:148-152 | "" for a country past the list, the listed picture otherwise |
| Banks.MoveCostsFromScript | awe/bank.cpp:134-147 | each listed move cost is the script's entry narrowed to a 32-bit int, which is the entry itself when it fits; a movement type past the list costs -1 |
| Banks.NewTileType | awe/bank.cpp:172-177 | the tile type carries its ID |
| Banks.GetOwnedTile | awe/bank.cpp:181-185 | the neutral tile for a country past the list, the listed tile otherwise |
| Banks.OwnedTileWithoutTiles | awe/bank.cpp:174-185 | a tile type whose script lists no owned tiles shows its neutral tile for every country |
| Banks.NewUnitType | awe/bank.cpp:206-226 | the unit type carries its ID, its maximum HP is at most INT_MAX, and its range is the pair of unsigned 32-bit values read, swapped if needed so the lower bound comes first |
| Banks.UInts | awe/bank.cpp:223 | each unsigned entry of the "canload" vector is read into its unsigned int slot reduced modulo 2^32, and the vector keeps its length |
| Banks.GetUnitPicture | awe/bank.cpp:238-242 | "" for a country past the list, the listed picture otherwise |
| Banks.GetUnitSprite | awe/bank.cpp:243-247 | "" for a country past the list, the listed sprite otherwise |
| Banks.InfiniteFuelAndAmmo | awe/bank.cpp:209-210 | the fuel or ammo is infinite exactly when the script's value is negative and stays negative once narrowed to a 32-bit int, which for a value at or above INT32_MIN is exactly when it is negative |
| Banks.IndexOf | awe/bank.cpp:279-282 | the index of the first occurrence, and none exactly when the ID is absent |
| Banks.CanLoad | awe/bank.cpp:279-282 | true exactly when the ID is in the can-load list |
| Banks.CanLoadType | awe/bank.cpp:283-290 | false for a null type; otherwise true exactly when some loadable type equals it |
| Banks.UpdateUnitTypes | awe/bank.cpp:297-308 | the nested loops build the bank entries whose index is in the can-load list, in bank order |
| Banks.LoadableMembers | awe/bank.cpp:297-308 | in a bank built by _load a type is loadable exactly when its ID is in the can-load list and it is that bank entry |
| Banks.LoadableIncreasing | awe/bank.cpp:297-308 | the loadable list's IDs are strictly increasing, so repeats in the can-load list add nothing |
| Banks.CanLoadOverloadsAgree | awe/bank.cpp:279-308 | after updateUnitTypes the two canLoad overloads agree for every bank entry |
| Banks.LoadedUnitBankIds | awe/bank.h:1022-1034 | a unit type bank built by _load has each entry's ID equal to its index |
| GameProperties.TurnOrderCounter.constructor | awe/source/bank.cpp:70 | the shared counter starts at 0 |
| GameProperties.TurnOrderCounter.NewCountry | awe/source/bank.cpp:71-78 | the counter post-increments, wrapping modulo 2^32, and the country's turn order is CountryTurnOrder at the old count |
| GameProperties.CountryTurnOrder | awe/source/bank.cpp:74-77 | the counter's value when there is no "turnorder" key or its value is neither unsigned nor a float, and the unsigned value of that key reduced modulo 2^32 when it is unsigned |
| GameProperties.OrderSetMembers | awe/source/bank.cpp:470-474 | an ID is in the collected set exactly when one of the countries seen has it |
| GameProperties.OrderSetSize | awe/source/bank.cpp:475-477 | the set is as large as the number of countries seen exactly when no two share a turn order |
| GameProperties.CheckCountryTurnOrderIDs | awe/source/bank.cpp:469-478 | true exactly when no turn order is NO_ARMY and no two are equal |
| GameProperties.ConsecutiveOrders | awe/source/bank.cpp:74 | countries built in a row without "turnorder" keys get consecutive turn orders from the counter, modulo 2^32 |
| GameProperties.ConsecutiveOrdersValid | awe/source/bank.cpp:469-478 | consecutive turn orders from 0 pass the check as long as there are at most 2^32-1 countries |
| GameProperties.CounterReachesNoArmy | awe/source/bank.cpp:469-478 | once 2^32 countries without "turnorder" keys have been built, one of them has NO_ARMY and the check fails |
| GameProperties.UpdateTurnOrderMap | awe/source/bank.cpp:38-48 | the keys of dest are exactly the turn orders of the countries named in src; each stored value comes from such a country; with distinct turn orders every named entry survives |
| GameProperties.TerrainMaxHP | awe/source/bank.cpp:97-98 | the maximum HP is at most INT_MAX and 0 when "hp" is absent; an unsigned "hp" is reduced modulo 2^32 into the unsigned int field and then capped at INT_MAX |
| GameProperties.WeaponRange | awe/source/bank.cpp:167-169 | the range is the optional low and high values read, swapped when needed so the lower bound comes first |
| GameProperties.WeaponRangeSwapped | awe/source/bank.cpp:167-169 | a range given the wrong way round is swapped, and one given the right way is kept |
| GameProperties.UnitMaxHP | awe/source/bank.cpp:206-208 | the maximum HP is at most INT_MAX, a multiple of ten, and 1000 when "hp" is absent |
| GameProperties.UnitMaxHPScaled | awe/source/bank.cpp:206-208 | an "hp" whose value modulo 2^32 is at most INT_MAX / 10 is scaled by ten, and a larger one gives 2147483640; below 2^32 the value modulo 2^32 is the hp itself |
| GameProperties.UnitMaxHPWraps | awe/source/bank.cpp:206-208 | an "hp" of 2^32 wraps to 0 in the unsigned int field and gives a maximum HP of 0, and one of 2^32 + 1 gives 10 |
| MapEntities.NewUnit | awe/include/unit.hpp:289-304 | a new unit is off the map, waiting, not capturing, not loaded onto anything, and carries nothing |
| MapEntities.NonNegative | awe/include/unit.hpp:87-94 | the stored value is never negative: 0 in place of a negative input and the input itself otherwise |
| MapEntities.SetHP | awe/include/unit.hpp:87-94 | only the HP changes, and it becomes the input clamped at 0 |
| MapEntities.SetFuel | awe/include/unit.hpp:112-117 | only the fuel changes, and it becomes the input clamped at 0 |
| MapEntities.SetAmmo | awe/include/unit.hpp:125-130 | only the ammo changes, and it becomes the input clamped at 0 |
| MapEntities.SettersOverride | awe/include/unit.hpp:87-130 | a second call of the same setter overrides the first, and writing back the stored value changes nothing |
| MapEntities.DisplayedHP | awe/include/unit.hpp:102-110 | the displayed HP is the least value whose multiple of ten reaches the internal HP |
| MapEntities.LoadUnit | awe/include/unit.hpp:166-170 | only the loaded set changes, and the ID joins it |
| MapEntities.UnloadUnit | awe/include/unit.hpp:172-178 | the result is true exactly when the ID was loaded, and afterwards it is not |
| MapEntities.LoadThenUnload | awe/include/unit.hpp:166-178 | unloading a unit just loaded succeeds and gives back the unit as it was |
| MapEntities.LoadOnto | awe/include/unit.hpp:186-198 | only the carrier changes; the unit counts as loaded exactly when the carrier is not 0 |
| MapEntities.NewArmy | awe/include/army.hpp:64-69 | a new army has its country and team, no funds, no COs, no units and no tiles |
| MapEntities.SetFunds | awe/include/army.hpp:100-102 | funds are never negative: a value of 0 or less stores 0, and a positive value is stored |
| MapEntities.SetCOs | awe/include/army.hpp:112-123 | a given current CO is stored with the tag CO; a tag CO given alone becomes the current CO with no tag CO |
| MapEntities.TagCOs | awe/include/army.hpp:125-129 | the two COs swap, unless there is no tag CO, when nothing changes |
| MapEntities.SetCOsKeepsACurrentCO | awe/include/army.hpp:112-123 | when either CO is given, the army ends up with a current CO |
| MapEntities.TagCOsTwice | awe/include/army.hpp:125-129 | tagging twice with both COs present gives back the army |
| MapEntities.NewTile | awe/source/map/mapmap.cpp:53-58 | a tile made by setMapSize has the given type and owner, no unit and no structure |
| MapGeometry.Distance | awe/include/map.hpp:46-50 | the taxicab distance reduced modulo 2^32, and exactly the taxicab distance when that fits |
| MapGeometry.DistanceToSelf | awe/include/map.hpp:46-50 | a tile is at distance 0 from itself |
| MapGeometry.DistanceSymmetric | awe/include/map.hpp:46-50 | the distance does not depend on the order of its arguments |
| MapGeometry.DistanceTriangle | awe/include/map.hpp:46-50 | the triangle inequality, whenever the two sums fit in an unsigned int |
| MapGeometry.EmptyMapHasNoTiles | awe/include/map.hpp:1239-1241 | on a map with a zero dimension every position is out of bounds |
| MapGeometry.NoPositionOutOfBounds | awe/include/map.hpp:1239-1241 | NO_POSITION is out of bounds on every map |
| MapGeometry.LowerBound | awe/source/map/maptile.cpp:402 | the band never starts below distance 1, which keeps the tile itself out of every band |
| MapGeometry.RowsAboveStep | awe/source/map/maptile.cpp:415-429 | scanning one more row adds exactly the band's tiles in that row |
| MapGeometry.RowsAboveTop | awe/source/map/maptile.cpp:405-412 | no tile of the band lies above the top row the scan starts at |
| MapGeometry.RowsAboveRest | awe/source/map/maptile.cpp:423-424 | once the scan stops, at the band's bottom row or the map's, no later row holds tiles of the band |
| MapGeometry.ScanLineEmpty | awe/source/map/maptile.cpp:416-418 | no tile of a row's line lies left of its first column, leftMostX or 0 |
| MapGeometry.ScanLineStep | awe/source/map/maptile.cpp:418-422 | one more column of the line adds its tile exactly when that tile is at a distance of at least startFrom |
| MapGeometry.ScanLineRest | awe/source/map/maptile.cpp:418-419 | once the column passes rightMostX or the map's width, the row adds no more tiles |
| MapGeometry.ScanOneLine | awe/source/map/maptile.cpp:416-422 | the inner loop returns exactly the row's line: the columns from leftMostX (or 0) to rightMostX, both computed in int, within the map and far enough |
| MapGeometry.ScanRowsUnfold | awe/source/map/maptile.cpp:414-429 | the scan from a row on is that row's line, then, unless the row number passes tile.y + endAt in unsigned int or the map's last row, the scan from the next row with the line two wider or narrower in unsigned int |
| MapGeometry.ScanLineIsRow | awe/source/map/maptile.cpp:416-422 | while tile.x + endAt fits an int, a row's line is exactly the band's tiles in that row |
| MapGeometry.ScanRowsBand | awe/source/map/maptile.cpp:414-429 | while tile.y + endAt fits an unsigned int and tile.x + endAt an int, the scan from a row of the band on takes exactly the band's tiles in that row and below |
| MapGeometry.AvailableTilesAsWrittenAgrees | awe/source/map/maptile.cpp:395-430 | while tile.y + endAt fits an unsigned int and tile.x + endAt an int, what getAvailableTiles returns is exactly the band AvailableTiles |
| MapGeometry.ScanRowsSound | awe/source/map/maptile.cpp:414-429 | every tile the scan takes from a row on is on the map, in that row or below, far enough, and in that row or no lower than tile.y + endAt modulo 2^32 |
| MapGeometry.AvailableTilesAsWrittenSound | awe/source/map/maptile.cpp:395-430 | whatever wraps, every tile returned is on the map, at a distance of at least max(startFrom, 1), in rows from the band's top row (or 0) down to that row or tile.y + endAt modulo 2^32 |
| MapGeometry.AvailableTilesWrapExample | awe/source/map/maptile.cpp:423-424 | on a 3 by 3 map from tile (0, 1) with endAt 2^32 - 1, tile.y + endAt wraps to 0, so only row 0's three tiles come back, though (0, 2) is in the band |
| MapGeometry.GetAvailableTiles | awe/source/map/maptile.cpp:395-430 | the diamond scan, its unsigned line width and bottom row and its int line ends included, returns AvailableTilesAsWritten, and exactly the band AvailableTiles (the in-bounds tiles whose distance lies between max(startFrom, 1) and endAt) while tile.y + endAt fits an unsigned int and tile.x + endAt an int |
| MapGeometry.AvailableTilesEdgeCases | awe/source/map/maptile.cpp:398-403 | nothing comes back for an off-map tile or an empty band, and the tile itself is never returned |
| MapGeometry.AvailableTilesMembers | awe/source/map/maptile.cpp:404-430 | a tile is in the band AvailableTiles exactly when it is in bounds and its distance lies in the band, where the unsigned distance is exact; the scan returns that band only under the bound of AvailableTilesAsWrittenAgrees |
| MapGeometry.AdjacentTiles | awe/source/map/maptile.cpp:395-430 | the band at distance 1 from an in-bounds tile is its in-bounds neighbours; AdjacentTilesAsWritten relates it to the scan |
| MapGeometry.ScanLineNear | awe/source/map/maptile.cpp:416-422 | a line at most three tiles wide takes only tiles of its row within half its width of the tile's column, at the distance asked; where its int ends wrap it takes none |
| MapGeometry.AdjacentTilesAsWritten | awe/source/map/maptile.cpp:395-430 | getAvailableTiles(tile, 1, 1) as written returns only in-bounds neighbours of an in-bounds tile, and all of them when the tile is left of column INT32_MAX |
| MapGeometry.GetTilesInCrosshair | awe/source/map/maptile.cpp:488-500 | the loops return exactly CrosshairTiles: nothing off the map, otherwise the tile, its row and its column |
| MapGeometry.CrosshairMembers | awe/source/map/maptile.cpp:488-500 | a tile is in the crosshair of an in-bounds tile exactly when it is in bounds and shares its row or column |
| MapGeometry.LineLength | awe/source/map/maptile.cpp:516-531 | the number of steps: the given distance, or the number of tiles up to the map's edge in that direction when it is 0 |
| MapGeometry.RayGrows | awe/source/map/maptile.cpp:533-556 | a ray one step longer gains exactly the next in-bounds tile |
| MapGeometry.RayStops | awe/source/map/maptile.cpp:548-554 | once the next step leaves the map, longer rays hold nothing more |
| MapGeometry.GetTilesInLine | awe/source/map/maptile.cpp:509-559 | the walk returns exactly LineTiles: the start and the in-bounds steps up to the line's length, stopping at the first off-map step |
| MapGeometry.LineTilesProperties | awe/source/map/maptile.cpp:509-559 | the line holds its in-bounds start and only in-bounds tiles in the start's row or column |
| MapGeometry.LineReachesEdge | awe/source/map/maptile.cpp:516-531 | with distance 0 the line reaches the map's edge in its direction |
| MapGeometry.ClampInto | awe/source/map/maptile.cpp:573-576 | the clamped coordinate lies in the map, and one already in it is kept |
| MapGeometry.GetTilesInArea | awe/source/map/maptile.cpp:568-584 | the loops return exactly AreaTiles: nothing on an empty map, otherwise the inclusive rectangle between the clamped corners |
| MapGeometry.AreaTilesProperties | awe/source/map/maptile.cpp:568-584 | the corners may come in either order, every tile is in bounds, and both clamped corners are included |
| MapData.WithTile | awe/source/map/maptile.cpp:177-196 | writing one tile of the grid changes that tile only and keeps the grid's shape |
| MapData.WithTop | awe/source/map/mapgraphics.cpp:26-45 | replacing the top frame of the selected-unit stack keeps every frame below it and the stack's depth |
| MapData.GetUnitOnTile | awe/source/map/maptile.cpp:207-216 | NO_UNIT off the map; otherwise the unit the tile records when it exists and is on the map, and NO_UNIT when not |
| MapData.ShapeKept | awe/include/map.hpp:1239-1241 | a state with the same grid dimensions as a well-shaped one is well shaped |
| MapData.PlacementKept | awe/source/map/mapunit.cpp:136-171 | tile occupancy agrees with unit positions in any state with the same tile units and the same positions |
| MapData.OwnershipKept | awe/source/map/maptile.cpp:177-196 | tile owners agree with army tile sets in any state with the same owners and the same tile sets |
| MapData.MembershipKept | awe/source/map/mapunit.cpp:26-51 | army unit sets agree with unit armies in any state with the same units, armies and unit sets |
| MapData.LoadsKept | awe/source/map/mapunit.cpp:399-470 | loadedOnto agrees with the carriers' loaded sets in any state with the same load edges |
| MapData.AcyclicKept | awe/source/map/mapunit.cpp:399-433 | the loading relation stays acyclic in any state with the same load edges |
| MapData.IDsKept | awe/source/map/map.cpp:460-473 | the ID bounds hold in any state with the same unit and army IDs and the same last unit ID |
| MapData.SelectionKept | awe/source/map/mapgraphics.cpp:26-74 | the selection stays valid in any state with the same units and the same stack |
| MapData.SameLinksConsistent | awe/include/map.hpp:1239-1270 | a consistent map stays consistent under any change that leaves positions, tile units, owners, army sets, load edges and IDs alone |
| MapData.SameGroundConsistent | awe/source/map/mapunit.cpp:399-470 | with everything but the load edges unchanged, a map is consistent when its load edges agree and stay acyclic |
| MapData.SomeRank | awe/source/map/mapunit.cpp:482-494 | an acyclic unit table has a rank that strictly decreases from every loaded unit to its carrier |
| MapData.Family | awe/source/map/mapunit.cpp:58-116 | the units deleteUnit removes are existing units and include the unit itself |
| MapData.FamilyClosed | awe/source/map/mapunit.cpp:82-83 | whatever a member of the family carries is in the family too |
| MapData.FamilyDownClosed | awe/source/map/mapunit.cpp:82-83 | the family of a unit is closed under loading |
| MapData.UpdateCapturingUnit | awe/source/map/map.cpp:449-458 | only tiles and units change, and no unit is added or removed |
| MapData.UpdateCapturingUnitLinks | awe/source/map/map.cpp:449-458 | stopping a capture changes nothing that consistency depends on |
| MapData.UpdateCapturingUnitEffect | awe/source/map/map.cpp:449-458 | an existing unit stops capturing and nothing else about the units changes; a capturing unit's in-bounds tile gets its terrain's maximum HP, and every other tile stays as it was |
| MapData.StopCapturing | awe/source/map/maparmy.cpp:109-114 | stopping the captures of a set of units changes only tiles and units |
| MapData.StopCapturingLinks | awe/source/map/maparmy.cpp:109-114 | stopping captures changes nothing that consistency depends on |
| MapData.StopCapturingEffect | awe/source/map/maparmy.cpp:109-114 | a unit is capturing afterwards exactly when it was and is not in the set; a tile's HP is restored exactly when a capturing unit of the set stands on it |
| MapData.Removed | awe/source/map/mapunit.cpp:58-116 | the removed units leave the unit table and every army stays |
| MapData.RemovedConsistent | awe/source/map/mapunit.cpp:58-116 | removing a set of units that holds whatever its members carry keeps the map consistent |
| MapData.RemovedIDs | awe/source/map/mapunit.cpp:58-116 | removing units keeps the ID bounds and a valid selection |
| MapData.RemovedFrames | awe/source/map/mapunit.cpp:92-95 | removing units keeps the last unit ID and leaves the top selection valid |
| MapData.RemovedAcyclic | awe/source/map/mapunit.cpp:58-116 | removing units keeps the loading relation acyclic |
| MapData.RemovedEffect | awe/source/map/mapunit.cpp:58-116 | the removed units leave the unit table, every tile, every army's unit set and every remaining unit's loaded set; the top selection is cleared exactly when it was one of them |
| MapData.RemovedTileAt | awe/source/map/mapunit.cpp:58-116 | a tile that recorded a removed unit records none afterwards, and every other tile is as it was |
| MapData.RemovedTiles | awe/source/map/mapunit.cpp:58-116 | removing units keeps the grid's shape, tile occupancy and ownership consistent |
| MapData.RemovedArmies | awe/source/map/mapunit.cpp:58-116 | removing units keeps the army unit sets consistent |
| MapData.RemovedLoads | awe/source/map/mapunit.cpp:58-116 | removing a set closed under loading keeps the load edges consistent |
| MapData.RemovedCarriers | awe/source/map/mapunit.cpp:82-91 | after removing a closed set, every remaining loaded unit's carrier exists and lists it |
| MapData.RemovedLoadSets | awe/source/map/mapunit.cpp:82-91 | after removal, every unit a carrier lists exists and is loaded onto that carrier |
| MapTiles.StructureOffset | awe/source/map/maptile.cpp:322-329 | the offset is (0, 0) for an off-map position |
| MapTiles.QuerySetTileTypeChangedTiles | awe/source/map/maptile.cpp:111-128 | the result always holds pos; it is exactly {pos} for a tile outside any structure; for a structure tile it is exactly pos, the root found by going back the tile's offset, and each dependent's tile found from the root |
| MapTiles.RootOfRoot | awe/source/map/maptile.cpp:117 | on a tile with offset (0, 0) the root found is the tile itself |
| MapTiles.AfterUndoesBefore | awe/source/map/maptile.cpp:117-124 | going back an offset and forward by the same offset returns to the tile, whatever the unsigned wrap-around |
| MapUnits.CreatedIDIsFresh | awe/source/map/map.cpp:460-473 | with the corrected ID search, while the unit table is not full, the ID createUnit takes is valid and used by no unit |
| MapUnits.CreateUnitEffect | awe/source/map/mapunit.cpp:26-51 | with the corrected ID search, createUnit returns NO_UNIT and changes nothing exactly when the army is absent or no ID is left; otherwise the fresh ID maps to a new unit of that type and army, joins that army's unit set and becomes the last ID handed out, and nothing else changes |
| MapUnits.CreateUnitConsistent | awe/source/map/mapunit.cpp:26-51 | createUnit with the corrected ID search keeps the map consistent |
| MapUnits.CreateUnit | awe/source/map/mapunit.cpp:26-51 | with the corrected ID search: NO_UNIT leaves the map as it was; any other result is a valid ID of an army on the map, the unit table gains exactly that key, and it becomes the last ID handed out |
| MapUnits.CreateUnitAsWritten | awe/source/map/mapunit.cpp:26-51 | createUnit with _findUnitID as written: an ID other than NO_UNIT that it returns is free in the old unit table |
| MapUnits.CreateUnitAsWrittenAgrees | awe/source/map/map.cpp:460-473 | while the last ID is valid and not the largest, createUnit as written is the corrected CreateUnit, so every property proved of CreateUnit holds of it there |
| MapUnits.CreateUnitAsWrittenTakesNoUnit | awe/source/map/map.cpp:465 | after the largest last ID, on a table that is neither empty nor full, createUnit as written stores the unit under NO_UNIT, returns NO_UNIT as it does on failure, and leaves a map that is not consistent |
| MapUnits.AddedConsistent | awe/source/map/mapunit.cpp:47-50 | adding, under a free ID, a unit that is off the map and neither carries nor is loaded keeps the map consistent |
| MapUnits.AddedPlacement | awe/source/map/mapunit.cpp:47-49 | a unit added off the map changes no tile's occupancy |
| MapUnits.AddedMembership | awe/source/map/mapunit.cpp:47-50 | the new unit is listed by its own army and by no other |
| MapUnits.AddedLoads | awe/source/map/mapunit.cpp:47-49 | a unit added with no cargo and no carrier adds no load edge |
| MapUnits.AddedIDs | awe/source/map/mapunit.cpp:36-43 | a new unit under a valid free ID keeps the ID bounds |
| MapUnits.AddedAcyclic | awe/source/map/mapunit.cpp:47-49 | adding an unloaded unit keeps the loading relation acyclic |
| MapUnits.FamilyMembers | awe/source/map/mapunit.cpp:82-83 | a unit is deleted with id exactly when it is id or is loaded onto a unit deleted with id |
| MapUnits.DeleteUnitEffect | awe/source/map/mapunit.cpp:58-116 | the unit and everything loaded onto it, however deep, leave the unit table, every tile, every army's unit set and every loaded set; the top selection selects none of them; every other unit is as it was but for its loaded set, and every army stays |
| MapUnits.DeleteUnitConsistent | awe/source/map/mapunit.cpp:58-116 | deleteUnit keeps the map consistent |
| MapUnits.DeleteUnit | awe/source/map/mapunit.cpp:58-116 | deleting a unit that does not exist changes nothing; otherwise the unit is gone and no unit is added |
| MapUnits.Relocated | awe/source/map/mapunit.cpp:159-171 | a move keeps the set of units |
| MapUnits.FreeTargetMovable | awe/source/map/mapunit.cpp:143-158 | on a map whose tiles and units agree, a target setUnitPosition accepts is vacant and is not the unit's own tile |
| MapUnits.OccupantRecorded | awe/source/map/maptile.cpp:207-216 | on a map whose tiles record only units standing on them, getUnitOnTile reads the tile's record |
| MapUnits.MovedTiles | awe/source/map/mapunit.cpp:162-168 | after a move, the target records the unit, the tile it left records none, and every other tile is as it was |
| MapUnits.MovedRecord | awe/source/map/mapunit.cpp:162-171 | a move changes tiles and the moved unit's position only, and keeps the grid's shape |
| MapUnits.MovedFrames | awe/source/map/mapunit.cpp:162-171 | a move leaves owners, armies, load edges and the selection unchanged |
| MapUnits.MovedOwners | awe/source/map/mapunit.cpp:162-168 | a move changes no tile's owner |
| MapUnits.MovedUnitsOnTiles | awe/source/map/mapunit.cpp:162-171 | after a move every unit on the map stands on a tile that records it |
| MapUnits.MovedTilesHoldUnits | awe/source/map/mapunit.cpp:162-171 | after a move every tile that records a unit records one standing on it |
| MapUnits.MovedConsistent | awe/source/map/mapunit.cpp:162-171 | a move to a vacant tile keeps the map consistent |
| MapUnits.SameLinksMovable | awe/source/map/map.cpp:449-458 | stopping a capture first does not change whether a move goes through |
| MapUnits.RelocatedConsistent | awe/source/map/mapunit.cpp:159-171 | stopping the capture and then moving keeps the map consistent |
| MapUnits.RelocatedEffect | awe/source/map/mapunit.cpp:159-171 | after the move the unit is at pos and no longer capturing, every other unit is as it was, the target records the unit, its old tile records none, and no tile changes owner |
| MapUnits.UpdateCapturingUnitUnits | awe/source/map/map.cpp:449-458 | stopping a unit's capture changes that unit's capturing flag and no other unit |
| MapUnits.RelocatedUnits | awe/source/map/mapunit.cpp:159-171 | the moved unit is at pos and no longer capturing; every other unit is as it was |
| MapUnits.RelocatedTiles | awe/source/map/mapunit.cpp:162-168 | after the move the tiles record the units UnitAfterMove says, and no owner changes |
| MapUnits.RelocatedTileAt | awe/source/map/mapunit.cpp:162-168 | the same, for one tile |
| MapUnits.SetUnitPositionEffect | awe/source/map/mapunit.cpp:136-171 | nothing changes for a missing unit, an off-map target other than NO_POSITION, an occupied tile or the unit's own tile; otherwise the target holds the unit, the tile it left holds none, and the unit is at pos and no longer capturing |
| MapUnits.SetUnitPositionConsistent | awe/source/map/mapunit.cpp:136-171 | setUnitPosition keeps the map consistent |
| MapUnits.SetUnitPositionCases | awe/source/map/mapunit.cpp:136-158 | setUnitPosition moves a unit exactly when it exists, is not NO_UNIT and the target is free |
| MapUnits.SetUnitPosition | awe/source/map/mapunit.cpp:136-171 | no unit is added or removed, and nothing changes for a missing unit or an off-map target other than NO_POSITION |
| MapUnits.OutermostCarries | awe/source/map/mapunit.cpp:482-494 | the unit getUnloadedUnitWhichContainsUnit finds exists, is not loaded, and carries the unit, however deep |
| MapUnits.CarrierIsOutermost | awe/source/map/mapunit.cpp:482-494 | any unloaded unit that carries u is the one found |
| MapUnits.LoadUnitRefuses | awe/source/map/mapunit.cpp:399-421 | the corrected loadUnit does what loadUnit as written does, except that it also refuses to load a unit onto its own cargo; both refuse, with no change, missing units, a self-load and an already loaded unit |
| MapUnits.LoadUnitAsWritten | awe/source/map/mapunit.cpp:399-433 | loadUnit as written keeps the set of units, changes nothing when its checks fail, and otherwise puts load in onto's loaded set |
| MapUnits.LoadUnit | awe/source/map/mapunit.cpp:399-433 | the corrected loadUnit keeps the set of units, and changes nothing when the checks fail or when onto is carried, however deep, by load |
| MapUnits.LoadUnitEffect | awe/source/map/mapunit.cpp:422-433 | after a successful load the unit is off the map, no longer capturing and loaded onto onto, its old tile is vacant, onto's loaded set gains it, and every other unit is as it was |
| MapUnits.LoadedEffect | awe/source/map/mapunit.cpp:422-433 | the same, for the statements that run once the checks pass |
| MapUnits.LoadUnitConsistent | awe/source/map/mapunit.cpp:399-433 | the corrected loadUnit keeps the map consistent, so no unit ends up carrying itself |
| MapUnits.LoadedConsistent | awe/source/map/mapunit.cpp:422-433 | the statements after the checks keep the map consistent when onto is not carried by load |
| MapUnits.RelocatedEdges | awe/source/map/mapunit.cpp:159-171 | a move keeps every load edge and puts the unit at the target |
| MapUnits.LinkedConsistent | awe/source/map/mapunit.cpp:431-432 | linking load to onto keeps the map consistent when load does not carry onto |
| MapUnits.LinkedFrames | awe/source/map/mapunit.cpp:431-432 | linking changes only the two units' load edges |
| MapUnits.LinkedLoads | awe/source/map/mapunit.cpp:431-432 | linking keeps loadedOnto and the loaded sets in agreement |
| MapUnits.LinkedLoadedSet | awe/source/map/mapunit.cpp:431 | onto's loaded set gains load, and no other loaded set changes |
| MapUnits.RelinkedAcyclic | awe/source/map/mapunit.cpp:432 | pointing load's carrier at a unit it does not carry keeps the loading relation acyclic |
| MapUnits.LoadUnitAsWrittenMakesCycle | awe/source/map/mapunit.cpp:399-433 | on a consistent map where unit 2 is loaded onto unit 1, loading 1 onto 2 as written links each onto the other, and the loading relation is no longer acyclic |
| MapUnits.TwoUnitsConsistent | awe/source/map/mapunit.cpp:399-433 | the map of that counterexample is consistent |
| MapUnits.UnloadUnitEffect | awe/source/map/mapunit.cpp:436-470 | nothing changes for a missing unit, an off-map or occupied target, or a unit not in from's loaded set; otherwise the unit is no longer loaded, leaves from's loaded set and stands on the target |
| MapUnits.UnlinkedFrames | awe/source/map/mapunit.cpp:464-465 | unlinking changes only the two units' load edges |
| MapUnits.UnlinkedConsistent | awe/source/map/mapunit.cpp:464-465 | unlinking a loaded unit from its carrier keeps the map consistent |
| MapUnits.UnlinkedAcyclic | awe/source/map/mapunit.cpp:464-465 | unlinking keeps the loading relation acyclic |
| MapUnits.UnlinkedLoads | awe/source/map/mapunit.cpp:464-465 | unlinking keeps loadedOnto and the loaded sets in agreement |
| MapUnits.UnloadUnitConsistent | awe/source/map/mapunit.cpp:436-470 | unloadUnit keeps the map consistent |
| MapUnits.UnloadUnit | awe/source/map/mapunit.cpp:436-470 | no unit is added or removed, and nothing changes for a missing unit or an off-map or occupied target |
| MapUnits.UnitVision | awe/source/map/mapunit.cpp:268-282 | 0 for a missing unit, the type's vision for a unit off the map, and otherwise that vision plus the tile's offset, but at least 1 |
| MapArmies.ReownedEffect | awe/source/map/maptile.cpp:188-195 | passing a tile to a new owner changes that tile's owner, drops it from the old owner's tile set and adds it to the new owner's, and changes nothing else |
| MapArmies.ReownedConsistent | awe/source/map/maptile.cpp:188-195 | passing a tile to another army keeps the map consistent |
| MapArmies.ReownedOwnership | awe/source/map/maptile.cpp:188-195 | afterwards the army tile sets and the tile owners agree again |
| MapArmies.OwnersChangedConsistent | awe/source/map/maptile.cpp:177-196 | a change of owners and tile sets alone, with the two agreeing afterwards, keeps the map consistent |
| MapArmies.SetTileOwnerEffect | awe/source/map/maptile.cpp:177-196 | off the map or for the current owner nothing changes; otherwise the tile's owner is army and no other owner changes, the old owner's set loses pos and army's gains it, a unit on the tile stops capturing, and no other unit changes |
| MapArmies.ReownedFromCaptured | awe/source/map/maptile.cpp:187-195 | passing a tile on after stopping the capture on it combines the owners of the old map with the units after the capture stopped |
| MapArmies.SetTileOwnerConsistent | awe/source/map/maptile.cpp:177-196 | setTileOwner keeps the map consistent |
| MapArmies.SetTileOwner | awe/source/map/maptile.cpp:177-196 | nothing changes off the map or for the current owner, and no unit is added or removed and the size is kept in any case |
| MapArmies.DeleteUnitGround | awe/source/map/mapunit.cpp:58-116 | deleteUnit leaves tile owners, army tile sets and everything besides the units alone |
| MapArmies.DeleteArmyUnitStep | awe/source/map/maparmy.cpp:71-76 | one turn of deleteArmy's unit loop deletes the unit when it exists and is not loaded, and keeps what the loop promises |
| MapArmies.UnitsGoneSkip | awe/source/map/maparmy.cpp:73-75 | a unit that is already gone or is loaded needs no deleting |
| MapArmies.DeleteUnitUnitsGone | awe/source/map/maparmy.cpp:75-76 | deleting an unloaded unit of the army extends what the unit loop has removed |
| MapArmies.DeleteUnitKeepsOwners | awe/source/map/maparmy.cpp:71-76 | deleting units changes no tile owner and no army's tile set |
| MapArmies.DeleteArmyTileStep | awe/source/map/maparmy.cpp:78-79 | one turn of deleteArmy's tile loop passes the tile to the transfer target and keeps what the loop promises |
| MapArmies.ArmyTileInBounds | awe/source/map/maparmy.cpp:78-79 | a tile in an army's tile set is in bounds and owned by that army |
| MapArmies.SetTileOwnerUnits | awe/source/map/maptile.cpp:177-196 | setTileOwner keeps every unit, with its carrier and its army |
| MapArmies.UnitsGoneKept | awe/source/map/maparmy.cpp:71-79 | what the unit loop has removed stays removed while units keep their carriers and armies |
| MapArmies.SetTileOwnerArmies | awe/source/map/maptile.cpp:191-193 | setTileOwner changes the armies' tile sets only |
| MapArmies.SetTileOwnerOwners | awe/source/map/maptile.cpp:195 | each tile the tile loop has visited is the transfer target's, and the rest keep their owners |
| MapArmies.ErasedArmyConsistent | awe/source/map/maparmy.cpp:81-84 | erasing an army from a consistent map keeps it consistent |
| MapArmies.ErasedArmyOwnership | awe/source/map/maparmy.cpp:84 | erasing an army keeps the tile owners and the remaining tile sets in agreement |
| MapArmies.ErasedArmyMembership | awe/source/map/maparmy.cpp:84 | erasing an army keeps the unit armies and the remaining unit sets in agreement |
| MapArmies.UnitPhaseStart | awe/source/map/maparmy.cpp:70-72 | the unit loop's invariant holds before the first unit |
| MapArmies.UnitPhaseStep | awe/source/map/maparmy.cpp:72-76 | each unit visited keeps the unit loop's invariant |
| MapArmies.TilePhaseStart | awe/source/map/maparmy.cpp:77-78 | after the unit loop the tile loop's invariant holds and the army still has all its tiles |
| MapArmies.TilePhaseStep | awe/source/map/maparmy.cpp:78-79 | each tile passed on keeps the tile loop's invariant |
| MapArmies.TilePhaseEnd | awe/source/map/maparmy.cpp:80-84 | once every tile has been passed on, erasing the army leaves a consistent map with everything deleteArmy promises |
| MapArmies.ArmyDeletedFrom | awe/source/map/maparmy.cpp:70-84 | the state after both loops and the erasure is what deleteArmy promises |
| MapArmies.DeleteArmy | awe/source/map/maparmy.cpp:54-85 | deleteArmy fails, changing nothing, exactly when the army is absent or the transfer target is neither present nor NO_ARMY; otherwise the army's unloaded units go with their cargo, every tile it owned belongs to the target, a matching override is cleared, the army is gone, and the map stays consistent; the selected army, the selected tile, the last unit ID and every other field are kept, each surviving unit is unchanged but for its loaded set and a capture that stops, each tile keeps all but its owner, HP and unit, and the selection stack keeps all but a cleared top frame |
| MapArmies.DeleteArmyUnits | awe/source/map/maparmy.cpp:71-77 | the unit loop deletes every unloaded unit of the army with its cargo, keeps every other unloaded unit, and keeps the map consistent and framed as KeptBesides says |
| MapArmies.DeleteArmyTiles | awe/source/map/maparmy.cpp:78-79 | the tile loop passes every tile of the army to the transfer target, keeps every other owner and the map consistent and framed as KeptBesides says |
| MapArmies.DeleteSelectedArmyStrandsSelection | awe/source/map/maparmy.cpp:54-85 | deleting the selected army while another army remains leaves _currentArmy naming the deleted army with armies still on the map, the state in which getNextArmy steps past end() |
| MapArmies.DeleteUnitKept | awe/source/map/mapunit.cpp:58-116 | deleteUnit keeps every field but the tiles, units, armies and selection stack; a tile changes only in its owner, HP or unit record, a surviving unit only in its loaded set or by stopping a capture, and the stack only by clearing its top frame |
| MapArmies.SetTileOwnerKept | awe/source/map/maptile.cpp:177-196 | setTileOwner keeps every field but the tiles, units and armies; a tile changes only in its owner, HP or unit record, and a unit only by stopping its capture |
| MapArmies.DeleteArmyOwners | awe/source/map/maparmy.cpp:78-79 | once every tile of the army has been passed on, exactly the tiles the army owned belong to the transfer target |
| MapArmies.NextTeam | awe/source/map/maparmy.cpp:42-45 | the team handed out is the counter, except that its largest value is skipped for 0 |
| MapArmies.CreateArmyEffect | awe/source/map/maparmy.cpp:25-48 | createArmy succeeds exactly for a country whose turn order keys no army; then one army of that country, with no funds, units or tiles, is added under its turn order, takes the next team, and the counter moves one past that team; nothing else changes |
| MapArmies.CreateArmyConsistent | awe/source/map/maparmy.cpp:25-48 | createArmy keeps the map consistent when nothing on the map still claims the new ID |
| MapArmies.CreateArmy | awe/source/map/maparmy.cpp:25-48 | createArmy succeeds exactly for a country whose turn order keys no army; failing changes nothing, and succeeding adds exactly that key to the armies and leaves the units alone |
| MapArmies.AddedArmyConsistent | awe/source/map/maparmy.cpp:40-42 | adding an army with no units and no tiles under an unclaimed ID keeps the map consistent |
| MapArmies.AddedArmyOwnership | awe/source/map/maparmy.cpp:40-42 | a new army with no tiles keeps the tile owners and tile sets in agreement |
| MapArmies.AddedArmyMembership | awe/source/map/maparmy.cpp:40-42 | a new army with no units keeps the unit armies and unit sets in agreement |
| MapArmies.GetArmyTeam | awe/source/map/maparmy.cpp:121-126 | the army's team, and 0 for an army not on the map |
| MapArmies.GetArmyFunds | awe/source/map/maparmy.cpp:149-154 | the army's funds, and -1 for an army not on the map |
| MapArmies.OffsetArmyFundsEffect | awe/source/map/maparmy.cpp:128-147 | an absent army changes nothing; otherwise the army's funds become old plus offset, or 0 when that is not positive, and nothing else changes |
| MapArmies.OffsetArmyFundsKeeps | awe/source/map/maparmy.cpp:140-147 | funds stay non-negative and consistency is untouched |
| MapArmies.OffsetArmyFunds | awe/source/map/maparmy.cpp:140-147 | only the armies change and no army is added or removed; an absent army or an offset of 0 changes nothing |
| MapArmies.SetArmyCOsEffect | awe/source/map/maparmy.cpp:173-196 | nothing changes for an absent army, no COs, or the current pair; otherwise the army ends up with a current CO, the given pair, or the tag CO alone as current with no tag CO, and nothing else changes |
| MapArmies.SetArmyCOs | awe/source/map/maparmy.cpp:173-196 | only the armies change, no army is added or removed, and every army but the one given stays as it was |
| MapArmies.TagArmyCOsEffect | awe/source/map/maparmy.cpp:236-250 | the army's two COs swap and nothing else changes, unless the army is absent or has no tag CO; tagging twice with both COs gives back the map |
| MapArmies.TagArmyCOs | awe/source/map/maparmy.cpp:236-250 | only the armies change, no army is added or removed, and every army but the one given stays as it was |
| MapArmies.StoppedFromNothing | awe/source/map/maparmy.cpp:109-114 | stopping the captures of no unit leaves the map as it is |
| MapArmies.StoppedFromStep | awe/source/map/map.cpp:449-458 | one more _updateCapturingUnit call extends the set of stopped units by its ID, whatever the order |
| MapArmies.StoppedTileStep | awe/source/map/map.cpp:449-458 | the tile restored by one more call is the tile that unit was capturing from |
| MapArmies.StoppedFromLinks | awe/source/map/map.cpp:449-458 | stopping captures changes nothing that consistency depends on |
| MapArmies.UnitsOnAdd | awe/source/map/maparmy.cpp:113-114 | the units on one more tile are those before plus the unit read from that tile |
| MapArmies.StopEach | awe/source/map/maparmy.cpp:110-111 | the loop over unit IDs stops every one of them, and the armies stay as they were |
| MapArmies.StopOnTiles | awe/source/map/maparmy.cpp:113-114 | the loop over tiles stops the unit on each of them, and the armies stay as they were |
| MapArmies.TileStopStep | awe/source/map/maparmy.cpp:114 | one turn of the tile loop extends the stopped units by the unit on that tile |
| MapArmies.SetArmyTeam | awe/source/map/maparmy.cpp:103-119 | an absent army or an unchanged team changes nothing; otherwise the army takes the team, and exactly its units and the units on its tiles stop capturing, their tiles restored |
| MapArmies.UnitsOnSame | awe/source/map/maptile.cpp:207-216 | two maps with the same links have the same units on the same tiles |
| MapArmies.SameUnitOnTile | awe/source/map/maptile.cpp:207-216 | getUnitOnTile reads only what stopping captures leaves alone |
| MapArmies.RetaggedLinks | awe/source/map/maparmy.cpp:108 | changing an army's team changes no link |
| MapArmies.SetArmyTeamConsistent | awe/source/map/maparmy.cpp:103-119 | setArmyTeam keeps the map consistent |
| MapArmies.UnitsOfArmyByPriority | awe/source/map/maparmy.cpp:341-353 | an empty map for an absent army; otherwise the army's units, each under its type's turn-start priority, with no empty group and nothing else |
| MapArmies.GroupedUnique | awe/source/map/maparmy.cpp:341-353 | two groupings of the same units are the same map |
| MapArmies.GroupedPartition | awe/source/map/maparmy.cpp:341-353 | the groups are disjoint and together are exactly the units grouped |
| MapArmies.DefaultWinCondition | awe/source/map/map.cpp:191-197 | true exactly when every army is on one team, which includes the case of no armies |
| MapArmies.LeastElement | awe/source/map/mapgraphics.cpp:347-350 | a non-empty set of army IDs has a least element |
| MapArmies.HasLeast | awe/source/map/mapgraphics.cpp:347-350 | the same, as an existence statement |
| MapArmies.Least | awe/source/map/mapgraphics.cpp:347-350 | the least ID of a non-empty set, the first key of a std::map |
| MapArmies.FirstArmy | awe/source/map/mapgraphics.cpp:347-350 | NO_ARMY with no armies, otherwise the least army ID |
| MapArmies.NextArmyCycles | awe/source/map/mapgraphics.cpp:340-345 | the next army is on the map; it is the nearest army above the selected one when there is one, and the first army otherwise |
| MapArmies.NextArmyOfOnly | awe/source/map/mapgraphics.cpp:340-345 | with one army, the next army is that army again |
| MapArmies.NextArmy | awe/source/map/mapgraphics.cpp:340-350 | NO_ARMY when no army is selected or there are none; otherwise an army on the map |
| MapArmies.SetSelectedArmyEffect | awe/source/map/mapgraphics.cpp:324-334 | NO_ARMY or an army on the map becomes selected; any other ID is refused with no change |
| MapArmies.SetSelectedArmy | awe/source/map/mapgraphics.cpp:324-334 | only the selected army changes, and it stays as it was or becomes NO_ARMY or an army on the map |
| MapMap.WithoutTildes | awe/source/map/mapmap.cpp:27-31 | every '~' is removed and every other character is kept, with its multiplicity; a name without '~' is unchanged |
| MapMap.SetMapName | awe/source/map/mapmap.cpp:26-36 | only the name changes, and it becomes the given name without its '~' characters |
| MapMap.SetMapNameIdempotent | awe/source/map/mapmap.cpp:26-36 | setting the same name twice is setting it once, and setting the current clean name changes nothing |
| MapMap.ResizedReadsOldOrNew | awe/source/map/mapmap.cpp:50-60 | after the intended resize every column has the new height, and an in-bounds tile reads as the old tile where there was one and as the new tile otherwise |
| MapMap.Resized | awe/source/map/mapmap.cpp:50-60 | the grid setMapSize is meant to build has w columns of h tiles each |
| MapMap.ResizedAsWrittenOverlong | awe/source/map/mapmap.cpp:50-59 | as written, a column that already held tiles keeps them at its front and grows past the new height |
| MapMap.ResizedAsWritten | awe/source/map/mapmap.cpp:50-59 | the grid as written has w columns, each an old column (or none) followed by h new tiles, the old tiles kept at its front |
| MapMap.ResizedAsWrittenReadsAsResized | awe/source/map/mapmap.cpp:50-60 | within the new bounds the grid as written reads as the intended grid: the old tile where there was one, the new tile otherwise |
| MapMap.ShrinkThenGrowReadsStaleTile | awe/source/map/mapmap.cpp:50-59 | on a 1 by 2 map shrunk to 1 by 1 and grown back, the as-written grid shows the stale old tile where the intended one shows the new tile |
| MapMap.ArmiesWithin | awe/source/map/mapmap.cpp:61-69 | every army is kept with all its other fields, and its tile set becomes exactly its tiles that are within the new bounds |
| MapMap.TrimTiles | awe/source/map/mapmap.cpp:65-68 | the loop over one army's tiles keeps exactly the tiles within the new bounds |
| MapMap.TrimArmies | awe/source/map/mapmap.cpp:64-69 | the loop over the armies gives every army its tile set trimmed to the new bounds |
| MapMap.UnitsToDelete | awe/source/map/mapmap.cpp:70-78 | the units a shrink is meant to delete are exactly those standing on the map on a tile now out of bounds |
| MapMap.UnitsToDeleteAsWritten | awe/source/map/mapmap.cpp:70-78 | the units a shrink collects as written are units of the map, include every unit standing out of bounds, and also every unit off the map, loaded or not yet placed |
| MapMap.OffMapUnitsDeletedAsWritten | awe/source/map/mapmap.cpp:71-75 | as written, a unit that is off the map (loaded or not yet placed) is collected for deletion, though it stands on no tile that went out of bounds |
| MapMap.ShrinkCollectsCargoAsWritten | awe/source/map/mapmap.cpp:71-78 | shrinking 2 by 2 to 1 by 1 with a loaded carrier on (0, 0): as written its cargo is collected; corrected, nothing is |
| MapMap.DeleteUnitUntouched | awe/source/map/mapunit.cpp:58-116 | deleteUnit leaves tile kinds and owners, the armies' tile sets and every field but units, tiles' units and HP and the top frame alone, and keeps loading acyclic |
| MapMap.DeletedStep | awe/source/map/mapmap.cpp:78 | deleting one more collected unit, or skipping it when an earlier deletion took it as cargo, extends what has been deleted |
| MapMap.DeletedFamily | awe/source/map/mapunit.cpp:82-95 | removing a unit together with its cargo from a partly deleted map extends what has been deleted by that unit |
| MapMap.DeleteEach | awe/source/map/mapmap.cpp:78 | the loop over the collected units deletes all of them, changes no other unit but for its loaded set, and keeps every unit that was neither loaded nor collected |
| MapMap.ClampedSel | awe/source/map/mapmap.cpp:80-93 | an in-bounds selection is kept; otherwise each coordinate goes to the last column or row, or to 0 for an empty dimension, so on a non-empty map the selection ends in bounds |
| MapMap.ShrinkEffect | awe/source/map/mapmap.cpp:61-93 | once the units collected as written are deleted with their cargo and the selection is clamped, the map is the trimmed map but for its units: every unit left stands in bounds and is unchanged but for its loaded set, and every unit that was neither loaded nor out of bounds is kept |
| MapMap.Shrink | awe/source/map/mapmap.cpp:61-93 | the shrinking half of setMapSize, with the grid and the deletion set as written, achieves exactly that shrunk state |
| MapMap.SetMapSize | awe/source/map/mapmap.cpp:42-95 | as written: the same size changes nothing; a resize drops the rectangle selection and sets the size and the grid as written; a shrink also trims the armies, deletes every unit out of bounds, loaded or unplaced ones included, with its cargo, and clamps the selection |
| MapMap.SetMapSizeTileKinds | awe/source/map/mapmap.cpp:42-95 | after a size change, every tile within the new bounds has the kind and owner of the tile that was there, if it was in the old bounds, and of the new tile otherwise |
| MapMap.Column | awe/source/map/mapmap.cpp:142-144 | one column of the inner loop holds exactly the requested number of tiles |
| MapMap.ColumnCover | awe/source/map/mapmap.cpp:142-144 | the inner loop visits exactly the tiles of column x from row y0 for m rows |
| MapMap.ColumnsCover | awe/source/map/mapmap.cpp:137-148 | the two loops visit exactly the tiles of the n by m block starting at (x0, y0) |
| MapMap.RectPositionsCover | awe/source/map/mapmap.cpp:137-148 | the rectangle loops visit exactly the tiles of the inclusive rectangle, and swapping the corners does not change the order |
| MapMap.RectInBounds | awe/source/map/mapmap.cpp:124-133 | with both corners in bounds, every tile between them is in bounds |
| MapMap.RectangleFillTiles | awe/source/map/mapmap.cpp:116-150 | a null type, then a start and then an end out of bounds fail in that order and change nothing; otherwise every tile of the rectangle is given the type and owner column by column, and the result says whether every setTileType call succeeded |
| MapMap.FillRectangle | awe/source/map/mapmap.cpp:136-149 | the loops fill the tiles of the rectangle in the order of the rectangle's visiting sequence |
| MapMap.FillTileEffect | awe/source/map/mapmap.cpp:145-146 | filling one tile keeps the grid's shape, succeeds exactly in bounds, gives that tile the owner and leaves the other tiles' owners alone |
| MapMap.FilledTilesEffect | awe/source/map/mapmap.cpp:139-148 | filling a sequence of tiles keeps the shape, succeeds exactly when every tile is in bounds, gives those tiles the owner and leaves every other tile's owner alone |
| MapMap.RectangleFillTilesOwners | awe/source/map/mapmap.cpp:116-150 | with corners in bounds, rectangleFillTiles succeeds, every tile of the rectangle has the new owner and every tile outside it keeps its own |
| MapMap.FillMap | awe/source/map/mapmap.cpp:102-110 | a null type fails; an empty map fails because the size less one wraps out of bounds; otherwise it is rectangleFillTiles over the whole map |
| MapMap.FillMapCoversMap | awe/source/map/mapmap.cpp:108-109 | the rectangle from (0, 0) to the size less one is exactly the map |
| MapMap.DeleteUnitTileAt | awe/source/map/mapunit.cpp:58-116 | after deleteUnit a tile records no unit if its unit was in the deleted family, and the same unit otherwise |
| MapMap.DeleteOnTileClears | awe/source/map/mapmap.cpp:240-244 | one tile of the loop: afterwards it holds no unit, the count is one exactly when it held one, no unit appears anywhere and the map stays deletable |
| MapMap.DeleteOnTileKeepsOthers | awe/source/map/mapmap.cpp:240-244 | when no unit on a tile is loaded, deleting what stands on one tile leaves every other tile's unit alone |
| MapMap.FamilyRemovedKeepsOthers | awe/source/map/mapunit.cpp:82-95 | removing the family of the unit on a tile keeps the tiles recording units that exist there, keeps placed units unloaded, and no other tile loses its unit |
| MapMap.DeleteOnTileSteps | awe/source/map/mapmap.cpp:240-244 | the loop body clears its tile, adds no unit and keeps other tiles |
| MapMap.VisitClears | awe/source/map/mapmap.cpp:234-246 | after visiting a sequence of tiles none of them holds a unit, and no tile that held none holds one |
| MapMap.VisitCounts | awe/source/map/mapmap.cpp:233-247 | when no unit on a tile is loaded, the counter ends as the number of visited tiles that held a unit, and every other tile's unit is unchanged |
| MapMap.VisitRectangle | awe/source/map/mapmap.cpp:231-247 | the loops visit the tiles of the rectangle in its visiting order and add up the counts |
| MapMap.RectangleDeleteUnits | awe/source/map/mapmap.cpp:217-248 | a start or end out of bounds gives 0 and no change; otherwise the unit on every tile of the rectangle is deleted and counted |
| MapMap.RectangleDeleteUnitsEffect | awe/source/map/mapmap.cpp:217-248 | afterwards no tile of the rectangle holds a unit; when no unit on a tile is loaded the result is the number of its tiles that held one, and tiles outside keep their units |
| MapMap.WaitUnit | awe/source/map/mapunit.cpp:304-314 | an existing unit gets the waiting flag and nothing else changes; an unknown ID changes nothing |
| MapMap.PlaceNewUnit | awe/source/map/mapmap.cpp:199-206 | a failed placement leaves the map as it was; a successful one needs the army on the map and adds units without removing any |
| MapMap.RectangleFillUnits | awe/source/map/mapmap.cpp:157-210 | a null type, NO_ARMY, a start or end out of bounds and an army index beyond the countries fail in that order and change nothing; otherwise the army is created when missing and every tile of the rectangle gets a new unit of the type and army |
| MapMap.DeleteOnTileForPlacement | awe/source/map/mapmap.cpp:197-198 | deleting the unit on the tile leaves a consistent map with the tile empty, the army present and every other tile's unit alone |
| MapMap.PlaceIsMove | awe/source/map/mapunit.cpp:136-171 | setUnitPosition of a fresh unit onto an empty tile passes every check and is the bare move |
| MapMap.PlaceCreated | awe/source/map/mapmap.cpp:206 | placing a fresh unit on an empty tile keeps the map consistent, puts the unit on that tile and leaves every other tile's unit alone |
| MapMap.Waited | awe/source/map/mapmap.cpp:204 | making the new unit stop waiting keeps the map consistent and its placed units unloaded |
| MapMap.Created | awe/source/map/mapunit.cpp:26-51 | with the army present and an ID to spare, createUnit returns a fresh non-null ID of a unit that is off the map, on a consistent map |
| MapMap.CreateAndPlace | awe/source/map/mapmap.cpp:199-206 | creating, unwaiting and placing a unit on an empty tile succeeds, keeps the map consistent, puts a new unit of the type and army there and leaves other tiles alone |
| MapMap.PlaceUnitEffect | awe/source/map/mapmap.cpp:197-206 | one tile of the loop replaces its unit with a new one of the type and army that is not waiting, keeps the map consistent and leaves every other tile's unit alone |
| MapMap.PlacerPlaces | awe/source/map/mapmap.cpp:197-206 | the loop body places a new unit on its tile and leaves every other tile's unit alone |
| MapMap.PlacedAlong | awe/source/map/mapmap.cpp:191-208 | filling in-bounds tiles with enough IDs to spare: every fill succeeds, every tile filled holds a new unit of the type and army, and every other tile keeps its unit |
| MapMap.RectangleFillUnitsEffect | awe/source/map/mapmap.cpp:185-209 | with its arguments accepted and IDs to spare, rectangleFillUnits succeeds, keeps the map consistent, fills every tile of the rectangle with a new unit of the type and army and leaves the tiles outside alone |
| MapMap.WithArmyEffect | awe/source/map/mapmap.cpp:187 | creating the missing army keeps the map consistent, puts the army on the map and moves no unit |
| MapSelection.SetSelectedUnit | awe/source/map/mapgraphics.cpp:26-45 | succeeds exactly for NO_UNIT or a unit that exists, and otherwise changes nothing; only the top frame changes; NO_UNIT resets the top frame to a cleared one, and another unit becomes the selected unit with the frame's tiles, shader and closed list kept |
| MapSelection.PushSelectedUnit | awe/source/map/mapgraphics.cpp:47-55 | succeeds exactly when the unit could be selected, pushing one new frame that selects it; a refused push leaves the map as it was |
| MapSelection.PopSelectedUnit | awe/source/map/mapgraphics.cpp:57-74 | with one frame left nothing changes; otherwise the top frame is dropped, and the frame below is kept if its unit still exists or is NO_UNIT and cleared otherwise, so the selected unit is always selectable afterwards |
| MapSelection.PopUndoesPush | awe/source/map/mapgraphics.cpp:47-74 | popping right after a successful push gives back the original map |
| MapSelection.PushDepth | awe/source/map/mapgraphics.cpp:47-55 | a push grows the stack by one frame exactly when it succeeds |
| MapSelection.AddAvailableTile | awe/source/map/mapgraphics.cpp:80-90 | an out-of-bounds tile changes nothing; otherwise only the top frame changes, gaining the tile in its available set |
| MapSelection.IsAvailableTile | awe/source/map/mapgraphics.cpp:92-101 | true exactly for an in-bounds tile of the top frame's available set |
| MapSelection.ClearAvailableTiles | awe/source/map/mapgraphics.cpp:103-105 | only the top frame changes, and its available set becomes empty |
| MapSelection.AddThenIsAvailable | awe/source/map/mapgraphics.cpp:80-101 | after adding a tile, a tile is available exactly when it was before or it is the added tile and in bounds |
| MapSelection.ClearThenNoneAvailable | awe/source/map/mapgraphics.cpp:92-105 | after clearing, no tile is available |
| MapSelection.SetSelectedTile | awe/source/map/mapgraphics.cpp:229-231 | an out-of-bounds tile changes nothing; an in-bounds one becomes the selected tile and nothing else changes |
| MapSelection.MoveSelectedTile | awe/source/map/mapgraphics.cpp:233-247 | only the selected tile changes; it becomes the neighbour in that direction when that is in bounds and otherwise stays, so a selection in bounds stays in bounds |
| MapSelection.MoveOffTopOrLeftEdge | awe/source/map/mapgraphics.cpp:233-243 | moving up from row 0 or left from column 0 wraps to 2^32 - 1 and leaves the map unchanged |
| MapSelection.MoveOffBottomOrRightEdge | awe/source/map/mapgraphics.cpp:237-247 | moving down from the last row or right from the last column leaves the map unchanged |
| MapSelection.MoveWithinMap | awe/source/map/mapgraphics.cpp:233-247 | a move that stays on the map changes only the selected tile, and by exactly one tile |
| MapSelection.MoveThenMoveBack | awe/source/map/mapgraphics.cpp:233-247 | a move that changed the selection is undone by the opposite move |
| MapSelection.SetRectangleSelectionStart | awe/source/map/mapgraphics.cpp:388-390 | an out-of-bounds corner changes nothing; an in-bounds one is recorded as the start and nothing else changes |
| MapSelection.SetRectangleSelectionEnd | awe/source/map/mapgraphics.cpp:392-394 | an out-of-bounds corner changes nothing; an in-bounds one is recorded as the end and nothing else changes |
| MapSelection.RemoveRectangleSelection | awe/source/map/mapgraphics.cpp:396-399 | both corners are forgotten and nothing else changes |
| MapSelection.RectangleCorner | awe/source/map/mapgraphics.cpp:401-407 | a recorded corner is returned as it is, and a missing one reads as (0, 0) |
| MapSelection.RecordedCornersKept | awe/source/map/mapgraphics.cpp:388-407 | recording two in-bounds corners keeps both, and after removing the selection the start reads as (0, 0) |
| MapMementos.Undone | awe/source/map/map.cpp:213-229 | with at most one memento nothing changes; otherwise at least one memento stays in the undo deque, none is lost, and additionalUndos + 1 of them move to the redo deque unless that would empty the undo deque, in which case all but one move |
| MapMementos.Redone | awe/source/map/map.cpp:236-251 | with nothing to redo nothing changes; otherwise none is lost, and additionalRedos + 1 mementos move to the undo deque, or all of them when fewer are there |
| MapMementos.UndoKeepsTimeline | awe/source/map/map.cpp:213-229 | undo keeps every memento and their order in the history; only the current position moves |
| MapMementos.RedoKeepsTimeline | awe/source/map/map.cpp:236-251 | redo keeps every memento and their order in the history; only the current position moves |
| MapMementos.UndoThenRedo | awe/source/map/map.cpp:213-251 | redoing as many steps as were just undone restores both deques |
| MapMementos.RedoThenUndo | awe/source/map/map.cpp:213-251 | undoing as many steps as were just redone restores both deques |
| MapMementos.MarkerIsCurrent | awe/source/map/map.cpp:264-276 | the index getMementos reports points, in its listing, at the front of the undo deque, the memento the map is in |
| MapMementos.Created | awe/source/map/map.cpp:525-533 | the new memento is pushed to the undo deque's front, the redo deque is cleared, and the oldest memento is dropped once the limit is passed, so the undo deque never grows past the limit |
| MapMementos.CreatedIsCurrent | awe/source/map/map.cpp:525-533 | after a new memento it is the current one and the listing is the undo deque alone |
| MapMementos.MementoDeques.constructor | awe/source/map/map.cpp:525-533 | a new history is empty, not disabled, not changed, and has the given positive limit |
| MapMementos.MementoDeques.Undo | awe/source/map/map.cpp:213-229 | the deques become Undone of the old deques, the map is loaded from the new current memento when anything moved, and the limit is kept |
| MapMementos.MementoDeques.Redo | awe/source/map/map.cpp:236-251 | the deques become Redone of the old deques, the map is loaded from the new current memento when anything moved, and the limit is kept |
| MapMementos.MementoDeques.CreateMemento | awe/source/map/map.cpp:525-533 | while hard-disabled nothing changes; otherwise the deques become Created of the old ones and the map is marked changed |
| MapMementos.MementoDeques.GetMementos | awe/source/map/map.cpp:264-276 | the names of every memento, the redo deque from its back and then the undo deque from its front, and the index of the current memento, which is the redo deque's size |
| MapScripts.RenameScriptFile | awe/source/map/map.cpp:305-329 | refused with no change when the names are equal, the old name is missing or the new name is taken; otherwise the old name's code is now under the new name, the old name is gone and every other script and field is as it was |
| MapScripts.RenameKeepsCount | awe/source/map/map.cpp:305-329 | a rename never changes the number of scripts |
| MapScripts.RenameBack | awe/source/map/map.cpp:305-329 | after an accepted rename, renaming back is accepted too and restores the map |
| GameMaps.GameMap.constructor | awe/include/map.hpp:1412-1426 | the map object holds the given state, which must be consistent |
| GameMaps.GameMap.CreateUnit | awe/source/map/mapunit.cpp:26-51 | the map stays consistent and its state and the ID returned are what CreateUnit gives for the old state |
| GameMaps.GameMap.SetUnitPosition | awe/source/map/mapunit.cpp:136-171 | the map stays consistent and its state becomes SetUnitPosition of the old state |
| GameMaps.GameMap.LoadUnit | awe/source/map/mapunit.cpp:399-433 | the map stays consistent and its state becomes the corrected LoadUnit of the old state |
| GameMaps.GameMap.UnloadUnit | awe/source/map/mapunit.cpp:436-470 | the map stays consistent and its state becomes UnloadUnit of the old state |
| GameMaps.GameMap.WaitUnit | awe/source/map/mapunit.cpp:304-314 | the map stays consistent and its state becomes WaitUnit of the old state |
| GameMaps.GameMap.SetTileOwner | awe/source/map/maptile.cpp:177-196 | the map stays consistent and its state becomes SetTileOwner of the old state |
| GameMaps.GameMap.CreateArmy | awe/source/map/maparmy.cpp:25-48 | for a new army ID that nothing on the map still claims, the map stays consistent and its state and the result are what CreateArmy gives |
| GameMaps.GameMap.SetArmyTeam | awe/source/map/maparmy.cpp:103-119 | the map stays consistent; an absent army or an unchanged team changes nothing, and otherwise the army takes the team and exactly TeamChangeStops stop capturing |
| GameMaps.GameMap.SetArmyFunds | awe/source/map/maparmy.cpp:128-138 | the map stays consistent and its state becomes SetArmyFunds of the old state |
| GameMaps.GameMap.OffsetArmyFunds | awe/source/map/maparmy.cpp:140-147 | the map stays consistent and its state becomes OffsetArmyFunds of the old state |
| GameMaps.GameMap.SetArmyCOs | awe/source/map/maparmy.cpp:173-196 | the map stays consistent and its state becomes SetArmyCOs of the old state |
| GameMaps.GameMap.TagArmyCOs | awe/source/map/maparmy.cpp:236-250 | the map stays consistent and its state becomes TagArmyCOs of the old state |
| GameMaps.GameMap.SetSelectedArmy | awe/source/map/mapgraphics.cpp:324-334 | the map stays consistent and its state becomes SetSelectedArmy of the old state |
| GameMaps.GameMap.SetMapName | awe/source/map/mapmap.cpp:26-36 | the map stays consistent and its state becomes SetMapName of the old state |
| GameMaps.GameMap.RenameScriptFile | awe/source/map/map.cpp:305-329 | the map stays consistent and its state becomes RenameScriptFile of the old state |
| ClosedList.Regenerated | awe/source/map/mapgraphics.cpp:131-185 | each node keeps its tile and g score; the first node ends with no spritesheet and every other node with the icon sheet |
| ClosedList.RegeneratedList | awe/source/map/mapgraphics.cpp:127-187 | the list keeps its length and every node becomes its regenerated value |
| ClosedList.RegenerateClosedListSprites | awe/source/map/mapgraphics.cpp:127-187 | the loop writes every node of the array in place to the regenerated list of the old contents |
| ClosedList.LastNodeArrow | awe/source/map/mapgraphics.cpp:138-148 | the last node of a path of two or more nodes gets the right, left, down or up arrow head by the way it is entered, and keeps its sprite when it does not move |
| ClosedList.StraightBodies | awe/source/map/mapgraphics.cpp:154-163 | a middle node passed straight through horizontally gets the horizontal body, and one passed straight through vertically the vertical body |
| ClosedList.PathNodesGetArrows | awe/source/map/mapgraphics.cpp:138-185 | on a path findPath could return, the last node always gets a head and every middle node the path does not turn back at always gets one of the six bodies |
| PathFinding.SelectCurrent | awe/source/map/maptile.cpp:606-615 | the node picked is in the open set and has the lowest F score of all open nodes |
| PathFinding.SumGDecreases | awe/source/map/maptile.cpp:657-660 | recording a lower G score for a tile never raises the sum of scores, and lowers it when the tile is counted |
| PathFinding.LinkStep | awe/source/map/maptile.cpp:657-660 | a recorded predecessor link is a valid path step, and it goes down in (G score, stamp), so following links back always ends |
| PathFinding.Prepend | awe/source/map/maptile.cpp:621-624 | putting a valid step in front of a valid path gives a valid path |
| PathFinding.TraceStep | awe/source/map/maptile.cpp:621-624 | one more step back along the predecessor links keeps the partial path valid and ending at the destination, and goes down in (G score, stamp) |
| PathFinding.Reconstruct | awe/source/map/maptile.cpp:617-626 | following the links back from the destination gives a valid path that starts at the origin with G score 0 and ends at the destination |
| PathFinding.LinkedAfterRelax | awe/source/map/maptile.cpp:656-666 | linking an affordable, crossable adjacent tile to the current one with its new score keeps every predecessor link valid |
| PathFinding.RelaxKeepsInvariant | awe/source/map/maptile.cpp:656-666 | a relaxation that passes all the checks keeps the search invariant |
| PathFinding.RelaxProgress | awe/source/map/maptile.cpp:657-660 | a relaxation either scores a new tile or lowers the sum of G scores |
| PathFinding.Relax | awe/source/map/maptile.cpp:657-666 | recording the better score keeps the search invariant, adds the tile to the open set, and scores a new tile or lowers the sum of G scores |
| PathFinding.CloseKeepsInvariant | awe/source/map/maptile.cpp:628 | removing the current node from the open set keeps the search invariant |
| PathFinding.AdjacentTilesOf | awe/source/map/maptile.cpp:629 | every tile returned is an in-bounds tile one step from an in-bounds current tile, and for a current tile left of column INT32_MAX every such tile is returned |
| PathFinding.ConsiderAdjacent | awe/source/map/maptile.cpp:631-667 | an adjacent tile that is passable, within fuel and movement points, crossable and better than its recorded score is relaxed; otherwise nothing changes; the invariant is kept either way |
| PathFinding.ConsiderEach | awe/source/map/maptile.cpp:630-668 | considering every adjacent tile keeps the search invariant and never raises the search's measure |
| PathFinding.Expand | awe/source/map/maptile.cpp:628-668 | closing the current node and considering its neighbours keeps the invariant and strictly lowers the measure, so the search always ends |
| PathFinding.FindPath | awe/source/map/maptile.cpp:599-671 | the search always ends; a path found starts at the origin with G score 0 and ends at the destination, and every step is to an adjacent in-bounds tile that is passable, crossable and within budget, with the score growing by its cost; origin equal to destination gives the one-node path |
| PathFinding.PathCostCovered | awe/source/map/maptile.cpp:638-662 | the last node's G score is at least the terrain cost of entering every tile of the path |
| PathFinding.PathAffordable | awe/source/map/maptile.cpp:647-650 | a path found costs no more than the unit's movement points, and no more than its fuel when that is finite |
| PathFinding.PathShape | awe/source/map/maptile.cpp:638-662 | G scores never decrease along a path, and every node after the first is on the map |
| Texture.FrameCount | sfx/source/texture.cpp:32-42 | the number of frames of a known sprite, and 0 for an unknown one |
| Texture.FrameRect | sfx/source/texture.cpp:44-62 | a known frame's rectangle, and the empty rectangle for an unknown sprite or frame |
| Texture.FrameDuration | sfx/source/texture.cpp:64-83 | a known frame's duration, and zero for an unknown sprite or frame |
| Texture.SpriteOffset | sfx/source/texture.cpp:85-95 | a known sprite's offset, and the zero vector for an unknown one |
| Texture.EmptySheetDefaults | sfx/source/texture.cpp:32-95 | a sheet with nothing loaded answers every lookup with its default |
| Texture.WithSpritesheet | sfx/source/texture.cpp:172-178 | the sheet is replaced, the sprite name kept, and the animation restarts at frame 0 with the error flag cleared |
| Texture.WithSprite | sfx/source/texture.cpp:185-191 | the same name changes nothing; a new name is stored and restarts the animation at frame 0 with the error flag cleared; the sheet is kept |
| Texture.WithCurrentFrame | sfx/source/texture.cpp:201-205 | without a sheet nothing changes; a real frame is stored; a frame past the last one is stored as 0 |
| Texture.Incremented | sfx/source/texture.cpp:207-210 | on a sheet-backed sprite the frame advances, wrapping from the last frame to 0 |
| Texture.Decremented | sfx/source/texture.cpp:218-226 | without a sheet nothing changes; frame 0 goes to the last frame, or stays 0 when there are no frames; any other frame goes back by one |
| Texture.StepRoundTrip | sfx/source/texture.cpp:207-226 | from a real frame, stepping forwards then back, or back then forwards, returns to the same state |
| Texture.StepsStayInRange | sfx/source/texture.cpp:201-226 | from a real frame or 0, either step lands on a real frame or 0 |
| Texture.AnimatedSprite.constructor | sfx/source/texture.cpp:162-163 | a sprite built without a sheet has no sheet, no sprite name and frame 0 |
| Texture.AnimatedSprite.WithSheet | sfx/source/texture.cpp:165-170 | the sheet is set first and then the sprite |
| Texture.AnimatedSprite.SetSpritesheet | sfx/source/texture.cpp:172-178 | the sprite's new state is WithSpritesheet of the old |
| Texture.AnimatedSprite.SetSprite | sfx/source/texture.cpp:185-191 | the sprite's new state is WithSprite of the old |
| Texture.AnimatedSprite.SetCurrentFrame | sfx/source/texture.cpp:201-205 | the sprite's new state is WithCurrentFrame of the old |
| Texture.AnimatedSprite.Increment | sfx/source/texture.cpp:207-210 | the state steps forwards and the new frame is returned |
| Texture.AnimatedSprite.PostIncrement | sfx/source/texture.cpp:212-216 | the state steps forwards and the old frame is returned |
| Texture.AnimatedSprite.Decrement | sfx/source/texture.cpp:218-226 | the state steps back and the new frame is returned |
| Texture.AnimatedSprite.PostDecrement | sfx/source/texture.cpp:228-232 | the state steps back and the old frame is returned |
| Mvc.RootFrom | mvc/Controller.cpp:12-16 | a root found by following parents is a controller that exists and has no parent |
| Mvc.RootFromMoreFuel | mvc/Controller.cpp:12-16 | following parents further never changes a root once one is found |
| Mvc.RootFromParent | mvc/Controller.cpp:12-16 | a child's requests end at the same root as its parent's |
| Mvc.HandlerCalls | mvc/Controller.cpp:114-116 | an event type without handlers calls nobody; otherwise every handler of the type is called with the event, once each, in registration order |
| Mvc.DispatchedAppend | mvc/Controller.cpp:111-118 | dispatch is first in, first out: the events of a longer queue's prefix are all dispatched before the rest |
| Mvc.DispatchedUnhandled | mvc/Controller.cpp:114-116 | an event whose type has no handler reaches nobody |
| Mvc.HandlerCallsAppend | mvc/Controller.cpp:46 | registering one more handler calls it after every handler already registered |
| Mvc.DispatchEvents | mvc/Controller.cpp:111-118 | the loop draining the queue makes exactly the dispatched calls |
| Mvc.CallHandlers | mvc/Controller.cpp:114-116 | the inner loop calls exactly the handlers of the event's type, in order |
| Mvc.Controllers.constructor | mvc/Controller.cpp:9-245 | a new hierarchy holds no controllers |
| Mvc.Controllers.NewController | mvc/Controller.cpp:9-245 | a new controller has a fresh ID, no parent and nothing registered, and no other controller changes |
| Mvc.Controllers.FindRoot | mvc/Controller.cpp:12-16 | the loop up the parents ends at the controller's root |
| Mvc.Controllers.RegisterCommand | mvc/Controller.cpp:9-21 | an empty callback or a command type already registered at the root fails and changes nothing; otherwise the root alone gains the command |
| Mvc.Controllers.RegisterQuery | mvc/Controller.cpp:23-35 | an empty callback or a query type already registered at the root fails and changes nothing; otherwise the root alone gains the query |
| Mvc.Controllers.RegisterEventHandler | mvc/Controller.cpp:37-47 | an empty callback fails and changes nothing; otherwise the root alone gains the handler after any already registered for the type |
| Mvc.Controllers.Command | mvc/Controller.cpp:49-57 | the callback registered for the command at the root, and a failure when there is none |
| Mvc.Controllers.Query | mvc/Controller.cpp:59-67 | the callback registered for the query at the root, and a failure when there is none |
| Mvc.Controllers.EmitEvent | mvc/Controller.cpp:69-77 | a null event fails and changes nothing; otherwise the event joins the back of the root's queue and nothing else changes |
| Mvc.Controllers.Shutdown | mvc/Controller.cpp:135-145 | the root alone stores the exit code |
| Mvc.Controllers.Tick | mvc/Controller.cpp:107-133 | a child returns Continue and changes nothing; a root makes exactly the dispatched calls of its queue, empties it, returns its stored code and resets it to Continue |
| Mvc.Controllers.AttachChildController | mvc/Controller.cpp:79-87 | null, a name already used by a child or model, or a child that cannot become one fails and changes nothing; otherwise the child gets the controller as its parent and is stored under the name |
| Mvc.Controllers.SetParentController | mvc/Controller.cpp:237-245 | a controller with registrations, queued events, models or views fails and nothing changes; otherwise only its parent is set |
| Mvc.Controllers.AttachModel | mvc/Controller.cpp:89-97 | null or a name already used by a child or model fails and changes nothing; otherwise the model is stored under the name |
| Mvc.Controllers.AttachView | mvc/Controller.cpp:99-105 | null or a view already attached fails and changes nothing; otherwise the view is added after the others |
| Mvc.Controllers.SetRootNode | mvc/Controller.cpp:20 | replacing a root's state by another parentless state moves no controller's root |
| Mvc.RootsUnchanged | mvc/Controller.cpp:12-16 | replacing a root by another root changes no controller's root |
| Mvc.RootFromReplaceRoot | mvc/Controller.cpp:12-16 | for any number of steps, replacing a root by another root changes no root found |
| Dialogue.NonEmpty | src/dialogue.cpp:315-321 | the non-empty options, in order, never more than were given |
| Dialogue.Padded | src/dialogue.cpp:242-255 | the options followed by empty strings up to three |
| Dialogue.OptionCount | src/dialogue.cpp:315-321 | the count of non-empty options is the number of non-empty strings among the three |
| Dialogue.NonEmptyOfThree | src/dialogue.cpp:315-321 | the non-empty options among three are each of them that is non-empty, in order |
| Dialogue.PackedOptions | src/dialogue.cpp:242-255 | packing the non-empty options to the front leaves no gap and keeps their count |
| Dialogue.NextOption | src/dialogue.cpp:281-286 | the next selection is always one of the options |
| Dialogue.PreviousOption | src/dialogue.cpp:288-293 | the previous selection is always one of the options |
| Dialogue.NextPreviousInverse | src/dialogue.cpp:281-293 | moving the selection one way and then the other returns to where it was |
| Dialogue.NextOptionTimes | src/dialogue.cpp:281-286 | any number of presses keeps the selection on an option |
| Dialogue.NextOptionTimesCounts | src/dialogue.cpp:281-286 | up to n presses move the selection that many places round the n options |
| Dialogue.NextOptionCycles | src/dialogue.cpp:281-286 | n presses come back to the start, and every option is reached in fewer than n |
| Dialogue.ChosenState | src/dialogue.cpp:297-303 | option 1 confirms as Option1, option 2 as Option2, and anything else as Option3 |
| Dialogue.DialogueBox.constructor | src/dialogue.cpp:165-167 | a new box has no options, no selection, is closed and sits at the bottom |
| Dialogue.DialogueBox.SetPosition | src/dialogue.cpp:196-201 | NumberOfPositions is stored as Bottom and any other position as given; nothing else changes |
| Dialogue.DialogueBox.ClampSelection | src/dialogue.cpp:238-241 | the first option is selected when options arrive at a box that had none, and the selection is then clamped to the options left, 0 when there are none |
| Dialogue.DialogueBox.SetOptions | src/dialogue.cpp:237-261 | the options become the as-written compaction of the given ones: packed to the front, except that when only the third is given none is left; the selection follows the clamping rule and nothing else changes |
| Dialogue.DialogueBox.SetOptionsIntended | src/dialogue.cpp:237-261 | with the compaction corrected, the options always become the given non-empty ones packed to the front, in order |
| Dialogue.DialogueBox.SelectNextOption | src/dialogue.cpp:281-286 | after typing stops and with options present the selection moves one up, from the last back to the first; otherwise nothing changes |
| Dialogue.DialogueBox.SelectPreviousOption | src/dialogue.cpp:288-293 | after typing stops and with options present the selection moves one down, from the first back to the last; otherwise nothing changes |
| Dialogue.DialogueBox.SelectCurrentOption | src/dialogue.cpp:295-309 | after typing stops and with options present it returns the selected option, which is between 1 and the count, and moves to its chosen state; otherwise it returns 0 and changes nothing |
| Dialogue.SetOptionsPacked | src/dialogue.cpp:245-255 | the as-written compaction leaves no gap, and equals the packed options in every case but the one where only the third is given, which leaves none |
| Dialogue.CompactedPacks | src/dialogue.cpp:245-255 | the corrected compaction always equals the given non-empty options packed to the front |
| Dialogue.Compacted | src/dialogue.cpp:245-255 | the corrected compaction of three options is three options, which CompactedPacks shows are the given non-empty ones packed to the front |
| Dialogue.CompactedAsWritten | src/dialogue.cpp:245-255 | the compaction as written gives three options, which SetOptionsPacked shows are the packed ones, or none when only the third is given |
| Dialogue.OnlyThirdOptionLostAsWritten | src/dialogue.cpp:248-250 | with only a third option "Yes", one option is given, the as-written compaction keeps none and the corrected one keeps "Yes" first |
| Dialogue.DialogueSequence.constructor | src/dialogue.cpp:107-155 | the sequence holds exactly the entries it was loaded with |
| Dialogue.DialogueSequence.AllocateDialogueBox | src/dialogue.cpp:76-101 | past the end of the sequence there is no box; otherwise a fresh, closed box with the entry's position (NumberOfPositions as Bottom) and texts, its options compacted by setOptions as written: packed to the front, except that an entry with only a third option gives a box with none |
| Gui.LastDot | sfx/source/gui/gui.cpp:1453-1456 | the position found is a '.', and no '.' follows it; None means the name holds no '.' |
| Gui.ExtractWidgetName | sfx/source/gui/gui.cpp:1453-1456 | the short name holds no '.'; a name without '.' is its own short name, otherwise the short name is everything after some '.' |
| Gui.WithCaptionAt | sfx/source/gui/gui.cpp:1396-1404 | the list grows to index + 1 entries when too short, padded with empty captions; entry index is the new caption and every other entry is kept |
| Gui.WithCaptionAtOverwrites | sfx/source/gui/gui.cpp:1396-1404 | setting the same caption entry twice leaves only the second caption |
| Gui.WithCaptionAtCommutes | sfx/source/gui/gui.cpp:1396-1404 | setting two different caption entries gives the same list in either order |
| Gui.SelectionAfter | sfx/source/gui/gui.cpp:982-1002 | other menus' selections are untouched, and a changed selection always selects a visible widget |
| Gui.SelectNothing | sfx/source/gui/gui.cpp:984 | an empty name changes no selection |
| Gui.SelectVisible | sfx/source/gui/gui.cpp:994-999 | a visible widget becomes the current selection, and the old current one becomes the previous one |
| Gui.SelectInvisible | sfx/source/gui/gui.cpp:994-1001 | a widget that is not visible is never selected |
| Gui.SelectPrevious | sfx/source/gui/gui.cpp:985-993 | going back swaps the pair when the previous widget is visible, and keeps it otherwise |
| Gui.SelectThenGoBack | sfx/source/gui/gui.cpp:982-1002 | selecting a widget and going back restores the earlier selection; going back again returns to the new widget |
| Gui.FlowWithout | sfx/source/gui/gui.cpp:1600-1605 | afterwards no direction names the erased widget, and every other direction is kept |
| Gui.SelectionWithout | sfx/source/gui/gui.cpp:1611-1617 | the erased widget is neither current nor previous afterwards; erasing the current widget deselects everything; other pairs are kept |
| Gui.NameWithout | sfx/source/gui/gui.cpp:1608-1609 | a select-first entry naming the erased widget is cleared; any other entry is kept |
| Gui.MinimisedAfterErase | sfx/source/gui/gui.cpp:1594-1598 | the erased widget's own list is gone (unless it is the parent), it no longer appears in its parent's list, and every other list is kept |
| Gui.FlowsWithout | sfx/source/gui/gui.cpp:1600-1605 | every flow entry is cleared of the erased widget; the keys stay the same |
| Gui.NamesWithout | sfx/source/gui/gui.cpp:1608-1609 | every select-first entry is cleared of the erased widget; the keys stay the same |
| Gui.SelectionsWithout | sfx/source/gui/gui.cpp:1611-1617 | every menu's selection pair loses the erased widget; the keys stay the same |
| Gui.ItemHierarchy | sfx/source/gui/guiscriptinterface.cpp:1240-1247 | None exactly when no menu has been added; otherwise depth 1 gains a level and deeper hierarchies replace their last entry with the new item |
| Gui.ItemHierarchyReplacesSibling | sfx/source/gui/guiscriptinterface.cpp:1240-1247 | adding two items in a row leaves just the second one in place |
| Gui.SubmenuExited | sfx/source/gui/guiscriptinterface.cpp:1327-1333 | one level is popped exactly when the depth is 3 or more |
| Gui.ExitUndoesIntoLastItem | sfx/source/gui/guiscriptinterface.cpp:1283-1333 | exiting the submenu just entered gives back the hierarchy, except at depth 1 where there is no submenu to exit |
| Gui.NewFlow | sfx/source/gui/guiscriptinterface.cpp:320-376 | a flow is stored exactly when the widget and every named target exist and the targets are in the widget's menu; then each stored name is empty, the go-back name, or a widget of that menu |
| Gui.StoredInMenu | sfx/source/gui/guiscriptinterface.cpp:356-364 | a target that passed the checks is stored as a name of the widget's own menu |
| Gui.ScrollbarValue | sfx/source/gui/guiscriptinterface.cpp:1080-1088 | the stored value is the requested one, capped at the content height |
| Gui.Gui.constructor | sfx/source/gui/gui.cpp:109-118 | the GUI starts not loading, with every table empty |
| Gui.Gui.SetTranslatedString | sfx/source/gui/gui.cpp:1391-1394 | the widget's caption becomes a single caption, and nothing else changes |
| Gui.Gui.SetTranslatedStringAt | sfx/source/gui/gui.cpp:1396-1404 | the widget's caption becomes a caption list (an entry that was not a list starts empty) with entry index set; nothing else changes |
| Gui.Gui.MakeNewDirectionalSelection | sfx/source/gui/gui.cpp:982-1002 | only the selection table changes, as the selection rules decide |
| Gui.Gui.EraseWidgetState | sfx/source/gui/gui.cpp:1582-1618 | the widget's own entries are gone, and every reference to it in flows, select-first entries, selections and minimised lists is cleared |
| Gui.Gui.IssueMenuItemID | sfx/source/gui/guiscriptinterface.cpp:1220-1223 | the ID returned is the counter's old value (0 when unset); the counter goes up by one and the item's caption is stored under that ID |
| Gui.Gui.AddMenu | sfx/source/gui/guiscriptinterface.cpp:1203-1230 | with no MenuBar, or outside loading, nothing changes and the result is NO_MENU_ITEM_ID; otherwise the hierarchy restarts at the new menu and the next ID is issued |
| Gui.Gui.AddMenuItem | sfx/source/gui/guiscriptinterface.cpp:1232-1274 | an ID is issued exactly when a menu exists and the MenuBar accepts the item; a refused item leaves the hierarchy as it was |
| Gui.Gui.AddMenuItemIntoLastItem | sfx/source/gui/guiscriptinterface.cpp:1276-1318 | an ID is issued exactly when a menu exists and the MenuBar accepts the item, which opens a submenu one level deeper; a refused item pops the level again |
| Gui.Gui.ExitSubmenu | sfx/source/gui/guiscriptinterface.cpp:1320-1340 | the hierarchy loses one level when it is in a submenu (depth 3 or more); otherwise nothing changes |
| Gui.Gui.SetWidgetDirectionalFlow | sfx/source/gui/guiscriptinterface.cpp:320-376 | only the flow table changes: the checked flow is stored under the widget's full name, and a refused one changes nothing |
| GuiSignalHandlers.SignalHandler | sfx/source/gui/guisignalhandlers.cpp:29-56 | false without scripts or once the widget is gone; otherwise true exactly when some handler ran and every handler that ran succeeded |
| GuiSignalHandlers.PressedButtonIndex | sfx/source/gui/guisignalhandlers.cpp:65-74 | the recorded index is that of the first button with the pressed caption, and equals the button count exactly when none has it |
| GuiSignalHandlers.ClosingSignalHandler | sfx/source/gui/guisignalhandlers.cpp:114-136 | TGUI's closing is always aborted; the window is hidden exactly when there is no closing handler or it left close set, and it is restored first exactly when it is hidden while minimised |
| MinimisedWindows.FirstBlank | sfx/source/gui/gui.cpp:505-517 | the index found holds a blank slot and every earlier slot is taken; the length means there is no blank slot |
| MinimisedWindows.Px | sfx/source/gui/guisignalhandlers.cpp:99-106 | the offset is written as its digits followed by "px" |
| MinimisedWindows.Minimised | sfx/source/gui/guisignalhandlers.cpp:94-106 | the window takes the first blank slot, or a new slot at the end when none is blank; every other slot is kept |
| MinimisedWindows.Cleared | sfx/source/gui/guisignalhandlers.cpp:109 | every slot holding the window is blanked and every other slot is kept |
| MinimisedWindows.TrimmedBlanks | sfx/source/gui/guisignalhandlers.cpp:110-111 | the result is a prefix of the slots that does not end in a blank slot, and only blank slots were dropped |
| MinimisedWindows.Restored | sfx/source/gui/guisignalhandlers.cpp:108-112 | the window is in no slot afterwards, no blank slot is left at the end, and the kept slots are the old ones with the window blanked |
| MinimisedWindows.MinimisedNoTrailingBlank | sfx/source/gui/guisignalhandlers.cpp:94-112 | minimising a window keeps a list free of trailing blank slots |
| MinimisedWindows.RestoreUndoesMinimise | sfx/source/gui/guisignalhandlers.cpp:94-112 | restoring a window just minimised gives back the list it was minimised into |
| MinimisedWindows.MinimisedChildWindowList.constructor | sfx/source/gui/gui.cpp:503 | a list starts with no slots; its blank value, padding and width are fixed (5 and 100 for the name-keyed copy) |
| MinimisedWindows.MinimisedChildWindowList.Minimise | sfx/source/gui/gui.cpp:505-517 | the slots become the minimised list, and the result is the offset of the slot taken: padding plus one slot width and padding per slot before it |
| MinimisedWindows.MinimisedChildWindowList.Restore | sfx/source/gui/gui.cpp:519-522 | the slots become the restored list |
| UserInput.ClampToCount | sfx/source/userinput.cpp:58-91 | the ID is kept when below the count and lowered to count - 1 otherwise |
| UserInput.ToKeyCode | sfx/source/userinput.cpp:58-67 | a key code below KeyCount is kept; any other becomes KeyCount - 1 |
| UserInput.ToMouseButton | sfx/source/userinput.cpp:69-79 | a button below ButtonCount is kept; any other becomes ButtonCount - 1 |
| UserInput.ToAxis | sfx/source/userinput.cpp:81-91 | an axis below AxisCount is kept; any other becomes AxisCount - 1 |
| UserInput.ToAxisDirection | sfx/source/userinput.cpp:93-96 | the direction is Negative exactly when the integer is negative |
| UserInput.SignalTypeValue | sfx/userinput.h:138-175 | every signal type has a value below the end marker SignalTypeCount (3) |
| UserInput.ToSignalType | sfx/source/userinput.cpp:98-108 | a value below SignalTypeCount names that signal type; any other becomes ButtonForm |
| UserInput.ToSignalTypeOfValue | sfx/source/userinput.cpp:98-108 | converting a signal type's own value gives that signal type back |
| UserInput.JoystickEqualIsEquality | sfx/source/userinput.cpp:50-56 | == holds exactly when axis and direction are both equal, and != is its negation |
| UserInput.IsBeingTriggered | sfx/userinput.h:586-595 | true exactly when some configured element equals some element of the list |
| UserInput.SharesElementEmpty | sfx/userinput.h:586-595 | with either list empty, nothing is being triggered |
| UserInput.SharesElementSymmetric | sfx/userinput.h:586-595 | swapping the two lists does not change the answer |
| UserInput.SharesElementBySets | sfx/userinput.h:586-595 | the answer is whether the two lists' element sets intersect |
| UserInput.SharesElementSameElements | sfx/userinput.h:586-595 | lists with the same elements, in any order and with any repetitions, give the same answer |
| UserInput.Delays | sfx/source/userinput.cpp:471-477 | a delayed-form control always has at least one delay: its own, or one second then a tenth of a second |
| UserInput.Scanned | sfx/source/userinput.cpp:431-457 | previous takes the old current; current is whether any configured key, axis, button or mouse button is in the scan; the mouse flags shift the same way |
| UserInput.FormSignal | sfx/source/userinput.cpp:459-492 | the form sets only the signal, the mouse-trigger flag, the clock and the delays; a signal triggered by the mouse is a signal, and the delay index stays in range |
| UserInput.OverWidgetRule | sfx/source/userinput.cpp:494-506 | only the signal, the mouse-trigger flag and the over-widget flag change, and a mouse trigger still implies a signal |
| UserInput.UpdatedSignal | sfx/source/userinput.cpp:431-507 | one frame shifts the input history, keeps the signal type, keeps the delay index in range, and a mouse trigger implies a signal |
| UserInput.FreeFormFollowsInput | sfx/source/userinput.cpp:460-463 | a free-form control that is not suppressed signals exactly while its input is pressed |
| UserInput.ButtonFormSignalsOnRelease | sfx/source/userinput.cpp:464-467 | a button-form control that is not suppressed signals exactly on the release edge |
| UserInput.SuppressedNeverSignals | sfx/source/userinput.cpp:494-499 | an input that began over a widget gives no signal, unless the configuration allows it |
| UserInput.MouseReleaseClearsFlag | sfx/source/userinput.cpp:504-506 | letting go of the mouse clears the over-widget flag |
| UserInput.DelayedFormTiming | sfx/source/userinput.cpp:468-491 | a press fires and restarts the clock at delay 0; a hold fires once the current delay has elapsed and moves to the next delay, staying on the last; otherwise no signal |
| UserInput.ScanSignal | sfx/source/userinput.cpp:431-457 | the method computes the scanned step |
| UserInput.ApplyForm | sfx/source/userinput.cpp:459-492 | the method computes the form step |
| UserInput.ApplyDelayedForm | sfx/source/userinput.cpp:468-491 | the method computes the delayed-form step |
| UserInput.ApplyOverWidgetRule | sfx/source/userinput.cpp:494-506 | the method computes the over-widget step |
| UserInput.UserInputState.constructor | sfx/source/userinput.cpp:287-385 | a user starts with the given controls, each with its delay index in range |
| UserInput.UserInputState.Signalling | sfx/source/userinput.cpp:204-211 | true exactly when the control exists and is signalling; an unknown control gives false |
| UserInput.UserInputState.UpdateSingle | sfx/source/userinput.cpp:431-507 | only the named control's signal changes, and it takes one frame's update |
| UserInput.UserInputState.Update | sfx/source/userinput.cpp:197-202 | every control takes one frame's update against the same scan; the set of controls is kept and every delay index stays in range |
| ScriptTypes.GetTypeID | engine/source/script.cpp:454-480 | "int" and "int32" both give 4, "uint" and "uint32" both give 8; a name neither primitive nor known to the engine gives -1 |
| ScriptTypes.GetTypeName | engine/source/script.cpp:489-516 | every ID from 0 to 11 names a primitive type, with the canonical names "int" for 4 and "uint" for 8; other IDs unknown to the engine give "" |
| ScriptTypes.PrimitiveIDsInTable | engine/source/script.cpp:454-475 | every primitive name has a table ID from 0 to 11, whatever the script engine would answer |
| ScriptTypes.TypeIDRoundTrip | engine/source/script.cpp:454-516 | for every ID from 0 to 11, the ID of the name getTypeName prints is that ID again |
| ScriptTypes.DigitChar | engine/source/script.cpp:79 | the character is the decimal digit of the value |
| ScriptTypes.NatToString | engine/source/script.cpp:79 | std::to_string of a non-negative integer: decimal digits only, with no leading zero |
| ScriptTypes.DigitRun | engine/source/script.cpp:67-73 | the run is made of digits, and the character after it is not a digit |
| ScriptTypes.Stoll | engine/source/script.cpp:67-73 | a value read by stoll fits a long long; None stands for its exceptions |
| ScriptTypes.StollUnsigned | engine/source/script.cpp:67-73 | a value read from the digit run fits a long long |
| ScriptTypes.Find | engine/source/script.cpp:67-73 | the index found holds the character and no earlier index does; None means the character does not occur |
| ScriptTypes.Substr | engine/source/script.cpp:67-73 | substr fails exactly when the start is past the end; otherwise it is the slice from the start, cut at the end of the string |
| ScriptTypes.DigitsValueOfNatToString | engine/source/script.cpp:79 | the printed digits have the printed value |
| ScriptTypes.DigitRunOfDigits | engine/source/script.cpp:67-73 | the digit run of printed digits followed by a non-digit is exactly the printed digits |
| ScriptTypes.StollOfNatToString | engine/source/script.cpp:67-73 | stoll reads back a printed number that fits a long long, after any white space and before any non-digit |
| ScriptTypes.StollOfTrimmed | engine/source/script.cpp:67-73 | stoll of a string whose trimmed text starts with a digit reads that text with no sign |
| ScriptTypes.StollUnsignedOfNatToString | engine/source/script.cpp:67-73 | the digit reader gives back a printed number |
| ScriptTypes.SkipSpaceOfSpaces | engine/source/script.cpp:67-73 | leading white space is skipped up to the first digit |
| ScriptTypes.FindFirst | engine/source/script.cpp:67-73 | find returns the index of the first occurrence |
| ScriptTypes.PrintedAt | engine/source/script.cpp:75-81 | each character of "(x, y)" is where the printed layout puts it |
| ScriptTypes.Vector2Separators | engine/source/script.cpp:67-81 | in a printed vector the first ',' follows the x digits and the first ')' is the last character |
| ScriptTypes.Vector2RoundTrip | engine/source/script.cpp:67-81 | constructing a vector from the text of a printed vector gives back the same vector |
| ScriptTypes.Vector2ToString | engine/source/script.cpp:75-81 | the printed vector is at least six characters long, opens with '(' and closes with ')' |
| ScriptTypes.Vector2FromString | engine/source/script.cpp:67-73 | a string shorter than two characters never gives a vector, as stoll of the empty x text throws |
| ScriptTypes.PrintedPieces | engine/source/script.cpp:67-73 | the two substrings handed to stoll are the x digits followed by the ',' and the y digits between " " and ")" |
| ScriptTypes.Vector2FromStringSteps | engine/source/script.cpp:67-73 | when each step succeeds, the vector is built from the two values read |
| ScriptTypes.IEqUMeaning | engine/source/script.cpp:98-101 | iEqU holds exactly when both components agree under the signed-to-unsigned conversion |
| ScriptTypes.IEqU | engine/source/script.cpp:98-101 | iEqU holds exactly when each unsigned component is the signed one, plus 2^32 when that is negative |
| ScriptTypes.MixedComparisonsSymmetric | engine/source/script.cpp:98-106 | iEqU and uEqI agree, whichever side the signed vector is on |
| ScriptTypes.NegativeEqualsWraparound | engine/source/script.cpp:93-106 | (-1, -2) equals the unsigned vector (2^32 - 1, 2^32 - 2), while iEqI still tells -1 from 1 |
| ScriptTypes.ToUInt8 | engine/source/script.cpp:29-32 | the uint8 cast keeps values below 256 and reduces any other modulo 256 |
| ScriptTypes.ColourConstruct | engine/source/script.cpp:29-32 | every component is its int reduced modulo 256, and a colour already in range is kept |
| ScriptModel.IAm | script/ScriptModel.hpp:293-296 | the command records the model type and keeps its dependencies and callback |
| ScriptModel.IDependOn | script/ScriptModel.hpp:204-207 | the command's dependencies become the given set; type and callback are kept |
| ScriptModel.AndIWant | script/ScriptModel.hpp:123-126 | the command records the callback; type and dependencies are kept |
| ScriptModel.WhoAreThey | script/ScriptModel.hpp:303-310 | the model type when IAm was chained, and an error exactly when it was not |
| ScriptModel.WhatDoTheyWant | script/ScriptModel.hpp:133-140 | the callback when AndIWant was chained, and an error exactly when it was not |
| ScriptModel.Validate | script/ScriptModel.hpp:336-349 | a command is accepted exactly when it names a model type that is neither registered nor queued, does not depend on itself, and has a callback; each failure gives the error of the first check it fails, in the source's order |
| ScriptModel.ChainedCommandValidates | script/ScriptModel.hpp:293-349 | a fully chained command is valid exactly when its type is new and not among its own dependencies |
| ScriptModel.UnchainedCommandFails | script/ScriptModel.hpp:133-140 | a command without a model type or without a callback is never valid |
| ScriptModel.Erase | script/ScriptModel.hpp:550-559 | erasing an entry keeps the entries before it, shifts those after it down by one, and loses only that entry |
| ScriptModel.FirstReady | script/ScriptModel.hpp:512-532 | the index found is the first cached registrant whose every dependency has registered; the length means none is ready |
| ScriptModel.TraverseCache | script/ScriptModel.hpp:512-565 | the traversal loop leaves the cache and the successful set as the resolution gives them, and fails exactly when a callback threw, naming it |
| ScriptModel.ResolvedAtFirstReady | script/ScriptModel.hpp:512-565 | the resolution runs the first ready registrant: a throw erases it and stops; a success records it and starts again from the head |
| ScriptModel.RemainingAfterSuccess | script/ScriptModel.hpp:553-560 | after a successful callback the loop's remaining work is the resolution of the smaller cache |
| ScriptModel.RemainingAfterThrow | script/ScriptModel.hpp:543-552 | a throwing callback ends the traversal with that registrant erased |
| ScriptModel.RemainingAtEnd | script/ScriptModel.hpp:512-565 | a traversal that reaches the end has run every callback the resolution runs |
| ScriptModel.ResolvedNothingReady | script/ScriptModel.hpp:512-530 | with nothing ready, the traversal runs no callback and changes nothing |
| ScriptModel.ResolvedRespectsDependencies | script/ScriptModel.hpp:512-565 | each callback runs only once all its dependencies had registered, before or during this traversal |
| ScriptModel.ResolvedAddsRegisteredIds | script/ScriptModel.hpp:553 | the successful set grows by exactly the IDs of the callbacks that ran and succeeded |
| ScriptModel.ResolvedKeepsRegistrants | script/ScriptModel.hpp:512-565 | no registrant is lost: each is still cached, registered, or the one whose callback threw |
| ScriptModel.PrependRespectsDependencies | script/ScriptModel.hpp:553-560 | a ready registrant run before a dependency-respecting sequence keeps the order dependency-respecting |
| ScriptModel.ResolvedLeavesNothingReady | script/ScriptModel.hpp:512-565 | when no callback threw, nothing left in the cache is ready |
| ScriptModel.ResolvedThrowingCallback | script/ScriptModel.hpp:543-552 | only callbacks that did not throw are registered; one that threw had its dependencies but is neither successful nor left cached |
| ScriptModel.CacheValidAfterErase | script/ScriptModel.hpp:553-559 | erasing an entry and marking it successful keeps cached IDs distinct, unregistered and free of self-dependency |
| ScriptModel.ResolvedKeepsValid | script/ScriptModel.hpp:512-565 | the traversal keeps cached IDs distinct, unregistered and free of self-dependency |
| ScriptModel.MutualDependencyNeverResolves | script/ScriptModel.hpp:512-565 | two registrants that depend on each other never register |
| ScriptModel.ModuleFilter | script/ScriptModel.hpp:457-471 | the filter is the module's own "filter" string when it is a valid regular expression, and the default "^.*\.as$" otherwise |
| ScriptModel.ModuleFolder | script/ScriptModel.hpp:452-456 | a folder is found exactly when the module holds a "folder" string |
| ScriptModel.ModuleLoads | script/ScriptModel.hpp:450-481 | no more loads are requested than there are modules |
| ScriptModel.ModuleLoadsComplete | script/ScriptModel.hpp:450-475 | every module with a "folder" string is loaded, with its name, folder and filter |
| ScriptModel.ModuleLoadsSound | script/ScriptModel.hpp:450-475 | every load names a module that has that "folder" string |
| ScriptModel.ModulesObject | script/ScriptModel.hpp:444-449 | the modules are found exactly when the JSON holds a "modules" object |
| ScriptModel.Script.constructor | script/ScriptModel.hpp:412-415 | the script model starts with no cached or registered registrants |
| ScriptModel.Script.CachedRegistrantIdentities | script/ScriptModel.hpp:584-588 | the result is the set of the cached registrants' IDs |
| ScriptModel.Script.RegisterInterface | script/ScriptModel.hpp:497-571 | an invalid command fails with its error and changes nothing; a valid one is pushed to the front and the cache is resolved, failing exactly when a callback threw; the cache invariant is kept |
| ScriptModel.Script.Traverse | script/ScriptModel.hpp:512-565 | the cache and successful set become those of the resolution, failing exactly when a callback threw |
| ScriptModel.Script.FromJSON | script/ScriptModel.hpp:430-482 | the JSON is always kept; the load fails exactly when registrants are still cached; otherwise it names the modules to load |
| ScriptModel.Script.ToJSON | script/ScriptModel.hpp:488-490 | the JSON given back is the one last given to fromJSON |
| ScriptModel.PushKeepsValid | script/ScriptModel.hpp:500-502 | pushing a validated registrant to the front keeps the cache invariant |

## Left out

- Tile setters and regex checks are parameters. Three things are read through given oracles:
  - setting a tile's type through its structure (`BoundedSetter`/`OwnerLocalSetter`);
  - the script-file name check (`validRegex`);
  - the GUI's widget look-ups and visibility (`widgets`, `visible`).
- The result of adding an item to a TGUI menu bar is a boolean parameter. TGUI's own widget plumbing, layouts and rendering are not modelled.
- Script callbacks and the script engine are parameters: whether a call succeeds or throws, and what a handler leaves in its `close` flag. AngelScript registration glue is not modelled.
- A unit's vision offset is a function parameter, because the terrain and weather rules behind it are outside the core.
- In `UserInput`, three things are parameters: the device scan, the current time, and whether the mouse is over a widget. Device polling, `setJoystickID` and `isMouseButtonTriggeringControl` are not modelled.
- `replenishUnit` is not modelled, because unit.cpp is not part of this model. A unit's default position is assumed to be `NO_POSITION`.
- `deleteUnit` and the helpers that follow carriers are defined only on maps whose loading relation is acyclic, which the corrected `loadUnit` keeps. The as-written `loadUnit` can break this (see Findings).
- MapMap.PlaceNewUnit: it refuses when the last unit ID or the table size is already out of range. No operation of the model reaches that state, so this guard is never proved to fire.
- MapMap.SetMapSize: a ghost method that composes the resize, the army trimming and the unit deletion, with the grid as written. No whole-map consistency proof is given, because the grid as written has overlong columns and so the map it leaves is not well shaped; SetMapSizeTileKinds and ShrinkEffect state what holds instead.
- MapUnits.CreatedIDIsFresh: uses the corrected ID search, because the consistency invariant forbids NO_UNIT as a unit's key. CreateUnitAsWrittenAgrees shows createUnit as written is the same below the largest last ID, and CreateUnitAsWrittenTakesNoUnit shows where it differs.
- MapUnits.CreateUnitEffect: uses the corrected ID search, for the same reason as CreatedIDIsFresh.
- MapUnits.CreateUnitConsistent: uses the corrected ID search, for the same reason as CreatedIDIsFresh.
- MapUnits.CreateUnit: uses the corrected ID search; CreateUnitAsWritten models the search as written.
- MapMap.Created: uses the corrected ID search, for the same reason as MapUnits.CreatedIDIsFresh.
- MapMap.CreateAndPlace: uses the corrected ID search, for the same reason as MapUnits.CreatedIDIsFresh.
- MapMap.PlaceUnitEffect: uses the corrected ID search, for the same reason as MapUnits.CreatedIDIsFresh.
- MapMap.PlacedAlong: uses the corrected ID search, for the same reason as MapUnits.CreatedIDIsFresh.
- GameMaps.GameMap.CreateUnit: uses the corrected ID search, for the same reason as MapUnits.CreatedIDIsFresh.
- MapGeometry.AvailableTilesMembers: is about the band AvailableTiles; the scan getAvailableTiles returns equals it only while tile.y + endAt fits an unsigned int and tile.x + endAt an int.
- MapGeometry.AdjacentTiles: is about the band as well; AdjacentTilesAsWritten gives the scan's exact neighbours only left of column INT32_MAX.
- PathFinding.AdjacentTilesOf: returns exactly the neighbours only for a current tile left of column INT32_MAX; in the last int column the scan's line ends wrap, and only soundness is stated.
- PropertyFields.FromJson: the generic reader keeps the JSON number as it is and does not narrow it to the C++ field's width; the field readers of `Banks` and `GameProperties` do.
- SafeJson.Convert: does not narrow to 32 bits, for the same reason as PropertyFields.FromJson.
- SafeJson.JsonObject.Apply: does not narrow to 32 bits, for the same reason as PropertyFields.FromJson.
- Mvc.Controllers.Tick: events that a handler emits while the tick runs are not dispatched in the same tick, and the shutdown code a handler sets is not returned.
- GameMaps.GameMap: only the operations that are plain functions of the map state are methods of the class. deleteUnit, deleteArmy, setMapSize and the rectangle operations are ghost in `MapUnits`, `MapArmies` and `MapMap`, because deleteUnit's cargo closure is a ghost set, so they are not methods of the class. The selection operations and PlaceNewUnit are not methods either. References into the containers and aliasing between them are not modelled.
- Memento side effects (the `disable_mementos` tokens that suppress snapshots) are not modelled. Logging, animation and drawing are left out everywhere. Reloading a memento is modelled as the abstract `loaded` field.
- MapMap.RectangleFillUnitsEffect: the consistency it proves has a requirement. The army must already be on the map, or be created under a country whose turn order equals its index and whose ID no tile records as owner. It also uses the corrected ID search, for the same reason as MapUnits.CreatedIDIsFresh.
- `createArmy` keeps the map consistent only when the new army's ID is not already recorded as a tile owner. setTileOwner can record an absent army as owner, so this is stated as a requirement.
- `getNextArmy` requires the current army to be in the table. The C++ would otherwise step past `end()`. deleteArmy never clears `_currentArmy`, so deleting the selected army while another army remains reaches exactly that state; MapArmies.DeleteSelectedArmyStrandsSelection states it. No corrected deleteArmy is given, because the source does not say which army should then be selected.
- `clearSelectedArmyOverride`: its body is not shown, so it is modelled as setting the override to none.
- `getTilesInCone` is not modelled.
- A movement cost missing from a unit type's table is read as -1 (impassable).
- `SelectCurrent` (the A* choice of the next node): the source takes the first node with the least f score in unordered-set iteration order. The model takes any such node.
- ClosedList.StraightBodies: for a vertical body the contract also requires the three nodes to share their x coordinate, which is weaker than the source's promise.
- The mvc model's `json` type is modelled as `SafeJson.Json`, an ordered JSON value, because the real alias is not part of this model. The controller's `fromJSON`/`toJSON` (Controller.cpp:147-235) are not modelled.
- `Mvc`'s look-ups of a root controller require the parent chain to be acyclic. In C++ a cycle of parent pointers would make every request recurse forever.
- The four-argument `apply` overloads with optional defaults in the second-generation banks are not part of this model. Only the three-argument readers shown are modelled.
- The weapon range type is not part of this model. It is assumed to be unsigned.
- Animated sprites: the frame-advance loop driven by the clock, floating-point layout and dialogue box transitions are not modelled. Only the frame bookkeeping and the error flag are.
- Concurrency and floating-point arithmetic are not modelled.

## Findings

| source | as written | input that shows it | evidently intended | confidence | as-written member | corrected member |
|---|---|---|---|---|---|---|
| awe/source/map/mapmap.cpp:50-59 | setMapSize resizes the vector of columns but then appends the new height's worth of tiles to each column instead of resizing it | a 1 by 2 map shrunk to 1 by 1 and grown back to 1 by 2: tile (0, 1) still reads as the old tile | every column holds exactly the new height, keeping the old tiles within the new bounds and new tiles elsewhere | not executed | MapMap.ShrinkThenGrowReadsStaleTile, MapMap.ResizedAsWrittenOverlong | MapMap.ResizedReadsOldOrNew |
| awe/source/map/mapmap.cpp:71-78 | after a shrink, every unit whose position is out of bounds is deleted, and `NO_POSITION` is out of bounds of every map | a 2 by 2 map shrunk to 1 by 1 with a carrier at (0, 0) holding one loaded unit: the loaded unit is collected for deletion | delete only the units standing on tiles that are now out of bounds | not executed | MapMap.OffMapUnitsDeletedAsWritten, MapMap.ShrinkCollectsCargoAsWritten | MapMap.UnitsToDelete |
| awe/source/map/mapunit.cpp:399-433 | loadUnit does not check whether the unit to load onto is already carried by the unit being loaded | unit 2 loaded onto unit 1, then unit 1 loaded onto unit 2 | refuse a load that would make a unit carry itself | not executed | MapUnits.LoadUnitAsWrittenMakesCycle | MapUnits.LoadUnitRefuses, MapUnits.LoadUnitConsistent |
| awe/source/map/map.cpp:460-473 | _findUnitID's first candidate is `_lastUnitID + 1` in 32-bit arithmetic, so after the largest ID it is 0, which is `NO_UNIT` | `_lastUnitID` = 2^32 - 1 with a table that is neither empty nor full: the new unit gets ID `NO_UNIT` | wrap to `ID_OF_FIRST_UNIT` on the first step as the later steps do | not executed | UnitIDs.FindUnitIDAsWritten, UnitIDs.NextUnitIDAsWritten, MapUnits.CreateUnitAsWrittenTakesNoUnit | UnitIDs.FindUnitID, MapUnits.CreateUnit |
| src/dialogue.cpp:248-250 | when compacting the options, the third option is copied from option two instead of option three | options ("", "", "Yes"): no option is kept | ["Yes", "", ""] | not executed | Dialogue.OnlyThirdOptionLostAsWritten | Dialogue.DialogueBox.SetOptionsIntended, Dialogue.CompactedPacks |

For each finding, the as-written member models the code literally. What
the rest of the model uses differs per finding:
- setMapSize's grid and its deletion set: as written (MapMap.SetMapSize
  and MapMap.Shrink);
- loadUnit: the corrected member (MapUnits.LoadUnit), with the as-written
  one beside it (MapUnits.LoadUnitAsWritten);
- _findUnitID: the corrected search in MapUnits.CreateUnit, with
  MapUnits.CreateUnitAsWritten beside it;
- the dialogue compaction: as written (Dialogue.DialogueBox.SetOptions),
  with the corrected SetOptionsIntended beside it.

With the first, third and fourth as written, the map's consistency
invariant cannot hold:
- stale tiles name units that no longer exist;
- a loading cycle makes the carrier walk endless;
- a unit would hold the reserved ID `NO_UNIT`.
