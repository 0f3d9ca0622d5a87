/**
 * The list of minimised child windows that a container keeps, so that each
 * minimised window gets a slot along the bottom of its parent. A slot is
 * either a window or a blank value; minimising fills the first blank slot
 * (or appends one) and restoring blanks a window's slots and trims blank
 * slots off the end.
 *
 * There are two copies of this class in the engine, one keyed by widget name
 * (blank is the empty string, padding 5 and width 100) and one keyed by widget
 * ID (blank is NO_WIDGET and the padding and width are the
 * MINIMISED_CHILD_WINDOW_* constants). Both are this one generic class.
 */
module MinimisedWindows {
  import ScriptTypes

  /** The constants of the name-keyed list (gui.cpp). */
  const NAME_BLANK: string := ""
  const NAME_PADDING: nat := 5
  const NAME_WIDTH: nat := 100

  /** The index of the first blank slot, or the length when there is none. */
  function FirstBlank<T(==)>(ws: seq<T>, blank: T): (i: nat)
    ensures i <= |ws|
    ensures i < |ws| ==> ws[i] == blank
    ensures forall j :: 0 <= j < i ==> ws[j] != blank
  {
    if |ws| == 0 then 0
    else if ws[0] == blank then 0
    else 1 + FirstBlank(ws[1..], blank)
  }

  /** The horizontal offset, in pixels, of slot i. */
  function SlotOffset(i: nat, padding: nat, width: nat): nat
  {
    padding + i * (width + padding)
  }

  /** std::to_string(x).append("px"). */
  function Px(x: nat): (s: string)
    ensures |s| > 2 && s[|s| - 2..] == "px"
  {
    ScriptTypes.NatToString(x) + "px"
  }

  /** The slots after minimising w: w takes the first blank slot, or a new one. */
  function Minimised<T(==)>(ws: seq<T>, blank: T, w: T): (r: seq<T>)
    ensures |r| == if FirstBlank(ws, blank) < |ws| then |ws| else |ws| + 1
    ensures r[FirstBlank(ws, blank)] == w
    ensures forall j :: 0 <= j < |ws| && j != FirstBlank(ws, blank) ==> r[j] == ws[j]
  {
    var i := FirstBlank(ws, blank);
    if i < |ws| then ws[i := w] else ws + [w]
  }

  /** Every slot holding w blanked; every other slot kept. */
  function Cleared<T(==)>(ws: seq<T>, blank: T, w: T): (r: seq<T>)
    ensures |r| == |ws|
    ensures w != blank ==> w !in r
    ensures forall k :: 0 <= k < |ws| && ws[k] != w ==> r[k] == ws[k]
  {
    seq(|ws|, k requires 0 <= k < |ws| => if ws[k] == w then blank else ws[k])
  }

  predicate NoTrailingBlank<T(==)>(ws: seq<T>, blank: T)
  {
    |ws| == 0 || ws[|ws| - 1] != blank
  }

  /** The longest prefix of ws that does not end in a blank slot. */
  function TrimmedBlanks<T(==)>(ws: seq<T>, blank: T): (r: seq<T>)
    ensures |r| <= |ws| && r == ws[..|r|]
    ensures NoTrailingBlank(r, blank)
    ensures forall j :: |r| <= j < |ws| ==> ws[j] == blank
    decreases |ws|
  {
    if |ws| > 0 && ws[|ws| - 1] == blank then TrimmedBlanks(ws[..|ws| - 1], blank)
    else ws
  }

  /** The slots after restoring w. */
  function Restored<T(==)>(ws: seq<T>, blank: T, w: T): (r: seq<T>)
    ensures NoTrailingBlank(r, blank)
    ensures w != blank ==> w !in r
    ensures |r| <= |ws|
    ensures forall j :: 0 <= j < |r| ==> r[j] == if ws[j] == w then blank else ws[j]
    ensures forall j :: |r| <= j < |ws| ==> ws[j] == blank || ws[j] == w
  {
    var c := Cleared(ws, blank, w);
    var r := TrimmedBlanks(c, blank);
    assert forall j :: 0 <= j < |r| ==> r[j] == c[j];
    assert forall j :: |r| <= j < |ws| ==> c[j] == blank;
    r
  }

  /** Minimising a non-blank window keeps the list free of trailing blanks. */
  lemma MinimisedNoTrailingBlank<T>(ws: seq<T>, blank: T, w: T)
    requires NoTrailingBlank(ws, blank) && w != blank
    ensures NoTrailingBlank(Minimised(ws, blank, w), blank)
  {
    var i := FirstBlank(ws, blank);
    var r := Minimised(ws, blank, w);
    if i < |ws| {
      assert |r| == |ws|;
      if i != |ws| - 1 {
        assert r[|r| - 1] == ws[|ws| - 1];
      }
    }
  }

  /**
   * Restoring a window just minimised into a list without trailing blanks that
   * did not hold it gives the list back.
   */
  lemma RestoreUndoesMinimise<T>(ws: seq<T>, blank: T, w: T)
    requires NoTrailingBlank(ws, blank) && w != blank && w !in ws
    ensures Restored(Minimised(ws, blank, w), blank, w) == ws
  {
    var i := FirstBlank(ws, blank);
    var m := Minimised(ws, blank, w);
    var c := Cleared(m, blank, w);
    if i < |ws| {
      assert forall j :: 0 <= j < |ws| ==> c[j] == ws[j];
      assert c == ws;
    } else {
      assert forall j :: 0 <= j < |ws| ==> c[j] == ws[j];
      assert c == ws + [blank];
      assert c[..|c| - 1] == ws;
    }
  }

  class MinimisedChildWindowList<T(==)> {
    const blank: T
    const padding: nat
    const width: nat
    var windows: seq<T>

    constructor (blank: T, padding: nat, width: nat)
      ensures this.blank == blank && this.padding == padding && this.width == width
      ensures windows == []
    {
      this.blank := blank;
      this.padding := padding;
      this.width := width;
      windows := [];
    }

    /** Gives w a slot and returns that slot's offset as "<x>px". */
    method Minimise(w: T) returns (x: string)
      modifies this
      ensures windows == Minimised(old(windows), blank, w)
      ensures x == Px(SlotOffset(FirstBlank(old(windows), blank), padding, width))
    {
      var offset: nat := padding;
      var i := 0;
      while i < |windows|
        invariant 0 <= i <= |windows| && windows == old(windows)
        invariant forall j :: 0 <= j < i ==> windows[j] != blank
        invariant offset == SlotOffset(i, padding, width)
      {
        if windows[i] == blank {
          windows := windows[i := w];
          return Px(offset);
        }
        offset := offset + width + padding;
        i := i + 1;
      }
      windows := windows + [w];
      x := Px(offset);
    }

    /** Blanks every slot holding w, then pops trailing blank slots. */
    method Restore(w: T)
      modifies this
      ensures windows == Restored(old(windows), blank, w)
    {
      ghost var cleared := Cleared(old(windows), blank, w);
      var k := 0;
      while k < |windows|
        invariant 0 <= k <= |windows| == |old(windows)|
        invariant forall j :: 0 <= j < k ==> windows[j] == cleared[j]
        invariant forall j :: k <= j < |windows| ==> windows[j] == old(windows)[j]
      {
        if windows[k] == w {
          windows := windows[k := blank];
        }
        k := k + 1;
      }
      assert windows == cleared;
      while |windows| > 0 && windows[|windows| - 1] == blank
        invariant TrimmedBlanks(windows, blank) == Restored(old(windows), blank, w)
        decreases |windows|
      {
        windows := windows[..|windows| - 1];
      }
    }
  }
}
