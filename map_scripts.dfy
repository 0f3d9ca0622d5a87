/**
 * The map's script files: a dictionary from file name to source code that
 * the map stores and scripts can rename.
 */
module MapScripts {
  import opened MapData

  /** Whether renameScriptFile goes ahead: the names differ, the old one exists and the new one is free. */
  predicate RenameAccepted(s: MapState, oldName: string, newName: string)
  {
    oldName != newName && oldName in s.scriptFiles && newName !in s.scriptFiles
  }

  /**
   * renameScriptFile: refused, changing nothing, when the names are equal,
   * no script has the old name or one already has the new name; otherwise
   * the script's code moves from the old name to the new one and every
   * other script stays as it was.
   */
  function RenameScriptFile(s: MapState, oldName: string, newName: string): (r: MapState)
    ensures !RenameAccepted(s, oldName, newName) ==> r == s
    ensures RenameAccepted(s, oldName, newName) ==>
      r == s.(scriptFiles := r.scriptFiles) &&
      r.scriptFiles.Keys == s.scriptFiles.Keys - {oldName} + {newName} &&
      r.scriptFiles[newName] == s.scriptFiles[oldName] &&
      forall k :: k in s.scriptFiles && k != oldName ==> r.scriptFiles[k] == s.scriptFiles[k]
  {
    if !RenameAccepted(s, oldName, newName) then s
    else
      var code := s.scriptFiles[oldName];
      s.(scriptFiles := (s.scriptFiles - {oldName})[newName := code])
  }

  /** A rename keeps the number of scripts. */
  lemma RenameKeepsCount(s: MapState, oldName: string, newName: string)
    ensures |RenameScriptFile(s, oldName, newName).scriptFiles| == |s.scriptFiles|
  {
    var r := RenameScriptFile(s, oldName, newName);
    if RenameAccepted(s, oldName, newName) {
      var rest := s.scriptFiles.Keys - {oldName};
      assert s.scriptFiles.Keys == rest + {oldName};
      assert r.scriptFiles.Keys == rest + {newName};
      assert |s.scriptFiles| == |s.scriptFiles.Keys| == |rest| + 1;
      assert |r.scriptFiles| == |r.scriptFiles.Keys| == |rest| + 1;
    }
  }

  /** Renaming back undoes a rename that went ahead. */
  lemma RenameBack(s: MapState, oldName: string, newName: string)
    requires RenameAccepted(s, oldName, newName)
    ensures RenameAccepted(RenameScriptFile(s, oldName, newName), newName, oldName)
    ensures RenameScriptFile(RenameScriptFile(s, oldName, newName), newName, oldName) == s
  {
    var r := RenameScriptFile(s, oldName, newName);
    var back := RenameScriptFile(r, newName, oldName);
    assert back.scriptFiles == s.scriptFiles;
  }
}
