/**
 * The undo/redo history of awe::map. Each memento is a named snapshot of
 * the map, kept in two deques whose fronts are the most recent entries: the
 * front of the undo deque is the state the map is in now, and the redo
 * deque holds the states that were undone. Undo and redo pop from the front
 * of one deque and push to the front of the other in a loop, so they are
 * methods of a class, proved against functions on the pair of deques.
 */
module MapMementos {
  import opened Integers

  /** A memento: the map as the SaveMap script serialised it, and the operation's name. */
  datatype Memento = Memento(data: seq<UInt8>, name: string)

  /** The two deques, each listed from front to back. */
  datatype Deques = Deques(undo: seq<Memento>, redo: seq<Memento>)

  function Reversed<T>(s: seq<T>): (r: seq<T>)
    ensures |r| == |s| && forall i :: 0 <= i < |s| ==> r[i] == s[|s| - 1 - i]
  {
    if s == [] then [] else Reversed(s[1..]) + [s[0]]
  }

  lemma ReversedTwice<T>(s: seq<T>)
    ensures Reversed(Reversed(s)) == s
  {
    assert forall i :: 0 <= i < |s| ==> Reversed(Reversed(s))[i] == s[i];
  }

  lemma ReversedAppend<T>(a: seq<T>, b: seq<T>)
    ensures Reversed(a + b) == Reversed(b) + Reversed(a)
  {
    assert forall i :: 0 <= i < |a + b| ==> Reversed(a + b)[i] == (Reversed(b) + Reversed(a))[i];
  }

  lemma ReversedSnoc<T>(s: seq<T>, x: T)
    ensures Reversed(s + [x]) == [x] + Reversed(s)
  {
    ReversedAppend(s, [x]);
  }

  /**
   * Every memento in history order, newest first: the redo deque read from
   * its back, then the undo deque read from its front.
   */
  function Timeline(d: Deques): seq<Memento>
  {
    Reversed(d.redo) + d.undo
  }

  /** The names of some mementos, in order. */
  function Names(s: seq<Memento>): (r: seq<string>)
    ensures |r| == |s| && forall i :: 0 <= i < |s| ==> r[i] == s[i].name
  {
    seq(|s|, i requires 0 <= i < |s| => s[i].name)
  }

  /** How many mementos undo moves: additionalUndos + 1, capped so that one stays behind. */
  function UndoCount(d: Deques, additionalUndos: nat): nat
    requires |d.undo| > 1
  {
    if additionalUndos > |d.undo| - 2 then |d.undo| - 1 else additionalUndos + 1
  }

  /** How many mementos redo moves: additionalRedos + 1, capped at the redo deque's size. */
  function RedoCount(d: Deques, additionalRedos: nat): nat
    requires |d.redo| > 0
  {
    if additionalRedos > |d.redo| - 1 then |d.redo| else additionalRedos + 1
  }

  /** The deques after undo(additionalUndos). */
  function Undone(d: Deques, additionalUndos: nat): (r: Deques)
    ensures |d.undo| <= 1 ==> r == d
    ensures |d.undo| > 1 ==> 1 <= |r.undo| < |d.undo| && |r.undo| + |r.redo| == |d.undo| + |d.redo|
    ensures |d.undo| > 1 && additionalUndos <= |d.undo| - 2 ==> |r.redo| == |d.redo| + additionalUndos + 1
    ensures |d.undo| > 1 && additionalUndos > |d.undo| - 2 ==> |r.undo| == 1
  {
    if |d.undo| <= 1 then d
    else
      var n := UndoCount(d, additionalUndos);
      Deques(d.undo[n..], Reversed(d.undo[..n]) + d.redo)
  }

  /** The deques after redo(additionalRedos). */
  function Redone(d: Deques, additionalRedos: nat): (r: Deques)
    ensures |d.redo| == 0 ==> r == d
    ensures |d.redo| > 0 ==> |r.redo| < |d.redo| && |r.undo| + |r.redo| == |d.undo| + |d.redo|
    ensures |d.redo| > 0 && additionalRedos <= |d.redo| - 1 ==> |r.undo| == |d.undo| + additionalRedos + 1
    ensures |d.redo| > 0 && additionalRedos > |d.redo| - 1 ==> r.redo == []
  {
    if |d.redo| == 0 then d
    else
      var n := RedoCount(d, additionalRedos);
      Deques(Reversed(d.redo[..n]) + d.undo, d.redo[n..])
  }

  /** Undo only moves the marker through the history: the mementos and their order stay as they were. */
  lemma UndoKeepsTimeline(d: Deques, additionalUndos: nat)
    ensures Timeline(Undone(d, additionalUndos)) == Timeline(d)
  {
    if |d.undo| > 1 {
      var n := UndoCount(d, additionalUndos);
      ReversedAppend(Reversed(d.undo[..n]), d.redo);
      ReversedTwice(d.undo[..n]);
      assert d.undo[..n] + d.undo[n..] == d.undo;
    }
  }

  /** Redo only moves the marker through the history: the mementos and their order stay as they were. */
  lemma RedoKeepsTimeline(d: Deques, additionalRedos: nat)
    ensures Timeline(Redone(d, additionalRedos)) == Timeline(d)
  {
    if |d.redo| > 0 {
      var n := RedoCount(d, additionalRedos);
      assert d.redo[..n] + d.redo[n..] == d.redo;
      ReversedAppend(d.redo[..n], d.redo[n..]);
    }
  }

  /** Redoing as many steps as were just undone restores both deques. */
  lemma UndoThenRedo(d: Deques, additionalUndos: nat)
    requires |d.undo| > 1 && additionalUndos <= |d.undo| - 2
    ensures Redone(Undone(d, additionalUndos), additionalUndos) == d
  {
    var n := additionalUndos + 1;
    var u := Undone(d, additionalUndos);
    assert u.redo[..n] == Reversed(d.undo[..n]);
    assert u.redo[n..] == d.redo;
    ReversedTwice(d.undo[..n]);
    assert d.undo[..n] + d.undo[n..] == d.undo;
  }

  /** Undoing as many steps as were just redone restores both deques. */
  lemma RedoThenUndo(d: Deques, additionalRedos: nat)
    requires |d.undo| > 0 && 0 < |d.redo| && additionalRedos <= |d.redo| - 1
    ensures Undone(Redone(d, additionalRedos), additionalRedos) == d
  {
    var n := additionalRedos + 1;
    var r := Redone(d, additionalRedos);
    assert r.undo[..n] == Reversed(d.redo[..n]);
    assert r.undo[n..] == d.undo;
    ReversedTwice(d.redo[..n]);
    assert d.redo[..n] + d.redo[n..] == d.redo;
  }

  /**
   * The marker getMementos reports, |redo|, is the index in the history of
   * the front of the undo deque: the memento the map was last loaded from.
   */
  lemma MarkerIsCurrent(d: Deques)
    requires d.undo != []
    ensures |d.redo| < |Timeline(d)| && Timeline(d)[|d.redo|] == d.undo[0]
  {
  }

  /** The deques after _createMemento(name) while mementos are not hard-disabled. */
  function Created(d: Deques, snapshot: seq<UInt8>, name: string, limit: nat): (r: Deques)
    ensures r.redo == [] && r.undo != [] ==> r.undo[0] == Memento(snapshot, name)
    ensures |d.undo| < limit ==> r.undo == [Memento(snapshot, name)] + d.undo
    ensures |d.undo| <= limit ==> |r.undo| <= limit
    ensures |d.undo| >= limit ==> |r.undo| == |d.undo|
    ensures r.redo == []
  {
    var pushed := [Memento(snapshot, name)] + d.undo;
    if |pushed| > limit then Deques(pushed[..|pushed| - 1], []) else Deques(pushed, [])
  }

  /** A new memento becomes the current one, and heads the history listing. */
  lemma CreatedIsCurrent(d: Deques, snapshot: seq<UInt8>, name: string, limit: nat)
    requires limit > 0
    ensures var r := Created(d, snapshot, name, limit);
      r.undo != [] && r.undo[0] == Memento(snapshot, name) &&
      Names(Timeline(r)) == Names(r.undo)
  {
  }

  /** The memento deques of one map, with the map data most recently loaded from a memento. */
  class MementoDeques {
    var undoDeque: seq<Memento>
    var redoDeque: seq<Memento>
    /** _mementoHardDisable: set while the LoadMap and SaveMap scripts run. */
    var hardDisable: bool
    /** _changed: the map was modified since it was last saved. */
    var changed: bool
    /** The data the map was last loaded from by undo or redo. */
    var loaded: seq<UInt8>
    /** _MEMENTO_LIMIT. */
    const limit: nat

    function State(): Deques
      reads this
    {
      Deques(undoDeque, redoDeque)
    }

    ghost predicate Valid()
      reads this
    {
      limit > 0 && |undoDeque| + |redoDeque| <= limit
    }

    constructor (memoryLimit: nat)
      requires memoryLimit > 0
      ensures Valid() && State() == Deques([], []) && !hardDisable && !changed && loaded == []
      ensures limit == memoryLimit
    {
      undoDeque := [];
      redoDeque := [];
      hardDisable := false;
      changed := false;
      loaded := [];
      limit := memoryLimit;
    }

    /**
     * undo: moves undo's front mementos to redo's front and loads the map from
     * the new front of the undo deque; nothing happens with at most one memento.
     */
    method Undo(additionalUndos: nat)
      requires Valid()
      modifies this
      ensures Valid() && State() == Undone(old(State()), additionalUndos)
      ensures old(|undoDeque|) <= 1 ==> loaded == old(loaded)
      ensures old(|undoDeque|) > 1 ==> loaded == undoDeque[0].data
      ensures hardDisable == old(hardDisable) && changed == old(changed)
    {
      if |undoDeque| <= 1 {
        return;
      }
      ghost var d := State();
      var additional := additionalUndos;
      var maxAdditionalUndos := |undoDeque| - 2;
      if additional > maxAdditionalUndos {
        additional := maxAdditionalUndos;
      }
      assert additional + 1 == UndoCount(d, additionalUndos);
      var from, onto := undoDeque, redoDeque;
      var i := 0;
      while i <= additional
        invariant 0 <= i <= additional + 1 <= |d.undo| - 1
        invariant unchanged(this)
        invariant from == d.undo[i..] && onto == Reversed(d.undo[..i]) + d.redo
      {
        var popped := from[0];
        from := from[1..];
        onto := [popped] + onto;
        assert d.undo[..i + 1] == d.undo[..i] + [popped];
        ReversedSnoc(d.undo[..i], popped);
        i := i + 1;
      }
      undoDeque, redoDeque := from, onto;
      loaded := undoDeque[0].data;
    }

    /**
     * redo: moves redo's front mementos to undo's front and loads the map from
     * the new front of the undo deque; nothing happens when there is nothing to redo.
     */
    method Redo(additionalRedos: nat)
      requires Valid()
      modifies this
      ensures Valid() && State() == Redone(old(State()), additionalRedos)
      ensures old(|redoDeque|) == 0 ==> loaded == old(loaded)
      ensures old(|redoDeque|) > 0 ==> loaded == undoDeque[0].data
      ensures hardDisable == old(hardDisable) && changed == old(changed)
    {
      if |redoDeque| == 0 {
        return;
      }
      ghost var d := State();
      var additional := additionalRedos;
      var maxAdditionalRedos := |redoDeque| - 1;
      if additional > maxAdditionalRedos {
        additional := maxAdditionalRedos;
      }
      assert additional + 1 == RedoCount(d, additionalRedos);
      var from, onto := redoDeque, undoDeque;
      var i := 0;
      while i <= additional
        invariant 0 <= i <= additional + 1 <= |d.redo|
        invariant unchanged(this)
        invariant from == d.redo[i..] && onto == Reversed(d.redo[..i]) + d.undo
      {
        var popped := from[0];
        from := from[1..];
        onto := [popped] + onto;
        assert d.redo[..i + 1] == d.redo[..i] + [popped];
        ReversedSnoc(d.redo[..i], popped);
        i := i + 1;
      }
      redoDeque, undoDeque := from, onto;
      loaded := undoDeque[0].data;
    }

    /** _createMemento: snapshot is what the SaveMap script writes for the map as it is now. */
    method CreateMemento(snapshot: seq<UInt8>, name: string)
      requires Valid()
      modifies this
      ensures Valid()
      ensures old(hardDisable) ==> State() == old(State()) && changed == old(changed)
      ensures !old(hardDisable) ==> State() == Created(old(State()), snapshot, name, limit) && changed
      ensures hardDisable == old(hardDisable) && loaded == old(loaded)
    {
      if hardDisable {
        return;
      }
      undoDeque := [Memento(snapshot, name)] + undoDeque;
      redoDeque := [];
      if |undoDeque| > limit {
        undoDeque := undoDeque[..|undoDeque| - 1];
      }
      changed := true;
    }

    /**
     * getMementos: every memento's name in history order, newest first, and
     * the index of the current one.
     */
    method GetMementos() returns (names: seq<string>, lastKnownMemento: nat)
      ensures names == Names(Timeline(State()))
      ensures lastKnownMemento == |redoDeque|
    {
      names := [];
      var i := |redoDeque|;
      while i > 0
        invariant 0 <= i <= |redoDeque|
        invariant names == Names(Reversed(redoDeque[i..]))
      {
        i := i - 1;
        assert redoDeque[i..] == [redoDeque[i]] + redoDeque[i + 1..];
        ReversedAppend([redoDeque[i]], redoDeque[i + 1..]);
        names := names + [redoDeque[i].name];
      }
      assert redoDeque[0..] == redoDeque;
      lastKnownMemento := |names|;
      var j := 0;
      while j < |undoDeque|
        invariant 0 <= j <= |undoDeque|
        invariant names == Names(Reversed(redoDeque) + undoDeque[..j])
      {
        assert undoDeque[..j + 1] == undoDeque[..j] + [undoDeque[j]];
        names := names + [undoDeque[j].name];
        j := j + 1;
      }
      assert undoDeque[..j] == undoDeque;
    }
  }
}
