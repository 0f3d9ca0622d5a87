/**
 * The bookkeeping of the GUI engine that does not go through TGUI: the
 * original (untranslated) captions, directional flow between widgets, the
 * per-menu selection history, the menu bar hierarchy and ID counters, the
 * lists of minimised child windows, and what erasing a widget removes from
 * all of these. Widgets themselves are outside the model: a lookup of a
 * widget by name is the parameter `widgets`, and whether a widget is visible
 * and enabled is the oracle `visible`.
 */
module Gui {
  import opened Wrappers
  import MinimisedWindows

  /** sfx::gui::original_caption: a caption and its variables. */
  datatype SingleCaption = SingleCaption(caption: string, variables: seq<string>)

  /** The std::variant of one caption or a list of them. */
  datatype OriginalCaption =
    | Single(single: SingleCaption)
    | ListOfCaptions(list: seq<SingleCaption>)

  const EMPTY_CAPTION := SingleCaption("", [])

  /** The widgets selected when moving up, down, left and right. */
  datatype DirectionalFlow = DirectionalFlow(up: string, down: string, left: string, right: string)

  /** A menu's (previously selected, currently selected) pair. */
  datatype Selection = Selection(previous: string, current: string)

  const NO_SELECTION := Selection("", "")

  /**
   * What looking a widget up by name yields: the menu it is in (fullname[0]),
   * its full name, its type, and whether its container exists.
   */
  datatype FoundWidget = FoundWidget(menu: string, fullname: string, widgetType: string,
                                     containerExists: bool)

  const MENU_BAR := "MenuBar"

  // ------------------------------------------------------------------
  // Widget names
  // ------------------------------------------------------------------

  /** The index of the last '.' in s, if any. */
  function LastDot(s: string): (r: Option<nat>)
    ensures r.Some? ==> r.value < |s| && s[r.value] == '.' &&
                        forall j :: r.value < j < |s| ==> s[j] != '.'
    ensures r.None? ==> forall j :: 0 <= j < |s| ==> s[j] != '.'
  {
    if |s| == 0 then None
    else if s[|s| - 1] == '.' then Some(|s| - 1)
    else LastDot(s[..|s| - 1])
  }

  /** The short name of a widget: the text after the last '.' of its full name. */
  function ExtractWidgetName(fullname: string): (r: string)
    ensures '.' !in r
    ensures ('.' !in fullname) ==> r == fullname
    ensures ('.' in fullname) ==> exists i :: 0 <= i < |fullname| && fullname[i] == '.' &&
                                           fullname[i + 1..] == r
  {
    match LastDot(fullname)
    case None => fullname
    case Some(i) => fullname[i + 1..]
  }

  // ------------------------------------------------------------------
  // Captions
  // ------------------------------------------------------------------

  /** The list of captions already stored for an entry, or an empty list. */
  function CaptionList(c: Option<OriginalCaption>): seq<SingleCaption>
  {
    if c.Some? && c.value.ListOfCaptions? then c.value.list else []
  }

  /** A caption list grown to at least index + 1 entries, with entry index set. */
  function WithCaptionAt(list: seq<SingleCaption>, index: nat, c: SingleCaption): (r: seq<SingleCaption>)
    ensures |r| == if |list| <= index then index + 1 else |list|
    ensures r[index] == c
    ensures forall j :: 0 <= j < |list| && j != index ==> r[j] == list[j]
    ensures forall j :: |list| <= j < |r| && j != index ==> r[j] == EMPTY_CAPTION
  {
    var grown := if |list| <= index then list + seq(index + 1 - |list|, _ => EMPTY_CAPTION) else list;
    grown[index := c]
  }

  /** Setting the same entry twice keeps only the second caption. */
  lemma WithCaptionAtOverwrites(list: seq<SingleCaption>, index: nat, a: SingleCaption, b: SingleCaption)
    ensures WithCaptionAt(WithCaptionAt(list, index, a), index, b) == WithCaptionAt(list, index, b)
  {
    var l1 := WithCaptionAt(WithCaptionAt(list, index, a), index, b);
    var l2 := WithCaptionAt(list, index, b);
    assert |l1| == |l2|;
    assert forall j :: 0 <= j < |l1| ==> l1[j] == l2[j];
  }

  /** Setting two different entries gives the same list in either order. */
  lemma WithCaptionAtCommutes(list: seq<SingleCaption>, i: nat, j: nat, a: SingleCaption, b: SingleCaption)
    requires i != j
    ensures WithCaptionAt(WithCaptionAt(list, i, a), j, b) == WithCaptionAt(WithCaptionAt(list, j, b), i, a)
  {
    var l1 := WithCaptionAt(WithCaptionAt(list, i, a), j, b);
    var l2 := WithCaptionAt(WithCaptionAt(list, j, b), i, a);
    assert |l1| == |l2|;
    assert forall k :: 0 <= k < |l1| ==> l1[k] == l2[k];
  }

  // ------------------------------------------------------------------
  // Directional selection
  // ------------------------------------------------------------------

  function SelectionOf(sel: map<string, Selection>, menu: string): Selection
  {
    if menu in sel then sel[menu] else NO_SELECTION
  }

  /**
   * The selection history after asking menu to select newsel, where
   * gotoPrevious is the GOTO_PREVIOUS_WIDGET name. Looking the pair up for
   * GOTO_PREVIOUS inserts it even when the previous widget is not visible.
   */
  function SelectionAfter(sel: map<string, Selection>, menu: string, newsel: string,
                          gotoPrevious: string, visible: string -> bool): (r: map<string, Selection>)
    ensures forall m :: m != menu ==> (m in r <==> m in sel)
    ensures forall m :: m in r && m != menu ==> r[m] == sel[m]
    ensures menu in r && SelectionOf(r, menu) != SelectionOf(sel, menu) ==>
              visible(r[menu].current)
  {
    var p := SelectionOf(sel, menu);
    if newsel == "" then sel
    else if newsel == gotoPrevious then
      if visible(p.previous) then sel[menu := Selection(p.current, p.previous)] else sel[menu := p]
    else if visible(newsel) then sel[menu := Selection(p.current, newsel)]
    else sel
  }

  /** An empty name changes nothing. */
  lemma SelectNothing(sel: map<string, Selection>, menu: string, gotoPrevious: string,
                      visible: string -> bool)
    ensures SelectionAfter(sel, menu, "", gotoPrevious, visible) == sel
  {
  }

  /** A visible widget becomes current, and the old current becomes previous. */
  lemma SelectVisible(sel: map<string, Selection>, menu: string, newsel: string,
                      gotoPrevious: string, visible: string -> bool)
    requires newsel != "" && newsel != gotoPrevious && visible(newsel)
    ensures SelectionAfter(sel, menu, newsel, gotoPrevious, visible)[menu] ==
            Selection(SelectionOf(sel, menu).current, newsel)
  {
  }

  /** A widget that is not visible is never selected. */
  lemma SelectInvisible(sel: map<string, Selection>, menu: string, newsel: string,
                        gotoPrevious: string, visible: string -> bool)
    requires newsel != gotoPrevious && !visible(newsel)
    ensures SelectionAfter(sel, menu, newsel, gotoPrevious, visible) == sel
  {
  }

  /**
   * GOTO_PREVIOUS swaps the pair when the previous widget is visible and
   * leaves it as it was otherwise.
   */
  lemma SelectPrevious(sel: map<string, Selection>, menu: string, gotoPrevious: string,
                       visible: string -> bool)
    requires gotoPrevious != ""
    ensures var p := SelectionOf(sel, menu);
            SelectionAfter(sel, menu, gotoPrevious, gotoPrevious, visible)[menu] ==
              if visible(p.previous) then Selection(p.current, p.previous) else p
  {
  }

  /**
   * Selecting a visible widget and then going back returns the current
   * selection to the widget selected before, when that one is still visible;
   * going back again returns to the new widget.
   */
  lemma {:induction false} SelectThenGoBack(sel: map<string, Selection>, menu: string, newsel: string,
                                            gotoPrevious: string, visible: string -> bool)
    requires gotoPrevious != "" && newsel != "" && newsel != gotoPrevious
    requires visible(newsel) && visible(SelectionOf(sel, menu).current)
    ensures var s1 := SelectionAfter(sel, menu, newsel, gotoPrevious, visible);
            var s2 := SelectionAfter(s1, menu, gotoPrevious, gotoPrevious, visible);
            var s3 := SelectionAfter(s2, menu, gotoPrevious, gotoPrevious, visible);
            s2[menu] == Selection(newsel, SelectionOf(sel, menu).current) && s3 == s1
  {
    var p := SelectionOf(sel, menu);
    var s1 := SelectionAfter(sel, menu, newsel, gotoPrevious, visible);
    assert s1 == sel[menu := Selection(p.current, newsel)];
    var s2 := SelectionAfter(s1, menu, gotoPrevious, gotoPrevious, visible);
    assert SelectionOf(s1, menu) == Selection(p.current, newsel);
    assert s2 == s1[menu := Selection(newsel, p.current)];
    var s3 := SelectionAfter(s2, menu, gotoPrevious, gotoPrevious, visible);
    assert SelectionOf(s2, menu) == Selection(newsel, p.current);
    assert s3 == s2[menu := Selection(p.current, newsel)];
  }

  // ------------------------------------------------------------------
  // Erasing a widget's state
  // ------------------------------------------------------------------

  /** A directional flow with every reference to name cleared. */
  function FlowWithout(f: DirectionalFlow, name: string): (r: DirectionalFlow)
    ensures name != "" ==> r.up != name && r.down != name && r.left != name && r.right != name
    ensures (f.up != name ==> r.up == f.up) && (f.down != name ==> r.down == f.down)
    ensures (f.left != name ==> r.left == f.left) && (f.right != name ==> r.right == f.right)
    ensures r.up in {f.up, ""} && r.down in {f.down, ""} && r.left in {f.left, ""} &&
            r.right in {f.right, ""}
  {
    DirectionalFlow(if f.up == name then "" else f.up,
                    if f.down == name then "" else f.down,
                    if f.left == name then "" else f.left,
                    if f.right == name then "" else f.right)
  }

  /**
   * A selection pair with name removed: a current selection of name
   * deselects and forgets the history; a previous selection of name only
   * forgets the history.
   */
  function SelectionWithout(p: Selection, name: string): (r: Selection)
    ensures name != "" ==> r.previous != name && r.current != name
    ensures p.current == name ==> r == NO_SELECTION
    ensures p.current != name ==> r.current == p.current
    ensures p.current != name && p.previous != name ==> r == p
  {
    if p.current == name then NO_SELECTION
    else if p.previous == name then Selection("", p.current)
    else p
  }

  function NameWithout(s: string, name: string): (r: string)
    ensures name != "" ==> r != name
    ensures s != name ==> r == s
  {
    if s == name then "" else s
  }

  /** The minimised-window list of parent after restoring name in it. */
  function MinimisedAfterErase(m: map<string, seq<string>>, name: string, parent: string): (r: map<string, seq<string>>)
    ensures parent in r && (name in r ==> name == parent)
    ensures name != "" ==> name !in r[parent]
    ensures forall k :: k in r && k != parent ==> k in m && r[k] == m[k]
  {
    var m1 := m - {name};
    var old_ := if parent in m1 then m1[parent] else [];
    m1[parent := MinimisedWindows.Restored(old_, MinimisedWindows.NAME_BLANK, name)]
  }

  /** The flow-clearing loop of eraseWidgetState, over every remaining entry. */
  method FlowsWithout(flows: map<string, DirectionalFlow>, name: string)
    returns (r: map<string, DirectionalFlow>)
    ensures r.Keys == flows.Keys
    ensures forall k :: k in r ==> r[k] == FlowWithout(flows[k], name)
  {
    r := flows;
    var left := flows.Keys;
    while left != {}
      invariant left <= flows.Keys && r.Keys == flows.Keys
      invariant forall k :: k in r && k !in left ==> r[k] == FlowWithout(flows[k], name)
      invariant forall k :: k in left ==> r[k] == flows[k]
      decreases left
    {
      var k :| k in left;
      var f := r[k];
      if f.up == name { f := f.(up := ""); }
      if f.down == name { f := f.(down := ""); }
      if f.left == name { f := f.(left := ""); }
      if f.right == name { f := f.(right := ""); }
      r := r[k := f];
      left := left - {k};
    }
  }

  /** The select-first loop of eraseWidgetState. */
  method NamesWithout(firsts: map<string, string>, name: string) returns (r: map<string, string>)
    ensures r.Keys == firsts.Keys
    ensures forall k :: k in r ==> r[k] == NameWithout(firsts[k], name)
  {
    r := firsts;
    var left := firsts.Keys;
    while left != {}
      invariant left <= firsts.Keys && r.Keys == firsts.Keys
      invariant forall k :: k in r && k !in left ==> r[k] == NameWithout(firsts[k], name)
      invariant forall k :: k in left ==> r[k] == firsts[k]
      decreases left
    {
      var k :| k in left;
      if r[k] == name {
        r := r[k := ""];
      }
      left := left - {k};
    }
  }

  /** The selection-history loop of eraseWidgetState. */
  method SelectionsWithout(selections: map<string, Selection>, name: string)
    returns (r: map<string, Selection>)
    ensures r.Keys == selections.Keys
    ensures forall k :: k in r ==> r[k] == SelectionWithout(selections[k], name)
  {
    r := selections;
    var left := selections.Keys;
    while left != {}
      invariant left <= selections.Keys && r.Keys == selections.Keys
      invariant forall k :: k in r && k !in left ==> r[k] == SelectionWithout(selections[k], name)
      invariant forall k :: k in left ==> r[k] == selections[k]
      decreases left
    {
      var k :| k in left;
      var p := r[k];
      if p.current == name {
        r := r[k := NO_SELECTION];
      } else if p.previous == name {
        r := r[k := Selection("", p.current)];
      }
      left := left - {k};
    }
  }

  /** The state this model keeps for sfx::gui. */
  datatype GuiState = GuiState(
    isLoading: bool,
    originalCaptions: map<string, OriginalCaption>,
    directionalFlow: map<string, DirectionalFlow>,
    selectThisWidgetFirst: map<string, string>,
    currentlySelectedWidget: map<string, Selection>,
    hierarchyOfLastMenuItem: map<string, seq<string>>,
    menuCounter: map<string, nat>,
    minimisedChildWindowList: map<string, seq<string>>)

  // ------------------------------------------------------------------
  // Menu hierarchy
  // ------------------------------------------------------------------

  /**
   * The hierarchy after adding an item: it appends at depth 1 and replaces
   * the deepest entry otherwise; None when no menu has been added yet.
   */
  function ItemHierarchy(h: seq<string>, text: string): (r: Option<seq<string>>)
    ensures r.None? <==> |h| == 0
    ensures r.Some? ==> |r.value| == (if |h| == 1 then 2 else |h|)
    ensures r.Some? ==> r.value[|r.value| - 1] == text && r.value[..|r.value| - 1] == h[..|r.value| - 1]
  {
    if |h| == 0 then None
    else if |h| == 1 then Some(h + [text])
    else Some(h[..|h| - 1] + [text])
  }

  /** Adding two items in a row leaves the second one as the sibling in place. */
  lemma ItemHierarchyReplacesSibling(h: seq<string>, a: string, b: string)
    requires |h| > 0
    ensures ItemHierarchy(ItemHierarchy(h, a).value, b) == ItemHierarchy(h, b)
  {
    var h1 := ItemHierarchy(h, a).value;
    assert h1[..|h1| - 1] == h[..|h1| - 1];
    var r1 := ItemHierarchy(h1, b).value;
    var r2 := ItemHierarchy(h, b).value;
    assert |r1| == |r2|;
    assert forall k :: 0 <= k < |r1| ==> r1[k] == r2[k];
  }

  /** The hierarchy after exiting a submenu: one level popped, from depth 3 or more. */
  function SubmenuExited(h: seq<string>): (r: Option<seq<string>>)
    ensures r.Some? <==> |h| >= 3
    ensures r.Some? ==> r.value + [h[|h| - 1]] == h
  {
    if |h| < 3 then None else Some(h[..|h| - 1])
  }

  /**
   * Exiting the submenu just entered with addMenuItemIntoLastItem gives the
   * hierarchy back, except from depth 1 where there is no submenu to exit.
   */
  lemma ExitUndoesIntoLastItem(h: seq<string>, text: string)
    requires |h| > 0
    ensures |h| >= 2 ==> SubmenuExited(h + [text]) == Some(h)
    ensures |h| == 1 ==> SubmenuExited(h + [text]).None?
  {
    if |h| >= 2 {
      assert (h + [text])[..|h|] == h;
    }
  }

  // ------------------------------------------------------------------
  // Directional flow storage
  // ------------------------------------------------------------------

  /** What one of the up/down/left/right names given to setWidgetDirectionalFlow refers to. */
  datatype FlowTarget = NoTarget | PreviousWidget | TargetWidget(w: FoundWidget) | UnknownWidget

  function ResolveTarget(t: string, gotoPrevious: string, widgets: map<string, FoundWidget>): FlowTarget
  {
    if t == "" then NoTarget
    else if t == gotoPrevious then PreviousWidget
    else if t in widgets then TargetWidget(widgets[t])
    else UnknownWidget
  }

  /** The name stored for a target: GOTO_PREVIOUS as is, a widget by its full name. */
  function StoredTarget(tg: FlowTarget, gotoPrevious: string): string
  {
    match tg
    case PreviousWidget => gotoPrevious
    case TargetWidget(w) => w.fullname
    case _ => ""
  }

  predicate InMenu(tg: FlowTarget, menu: string)
  {
    !tg.TargetWidget? || tg.w.menu == menu
  }

  /** A stored flow name is empty, GOTO_PREVIOUS, or a widget of the given menu. */
  predicate FlowNameIn(s: string, menu: string, gotoPrevious: string, widgets: map<string, FoundWidget>)
  {
    s == "" || s == gotoPrevious ||
    exists t :: t in widgets && widgets[t].menu == menu && widgets[t].fullname == s
  }

  /**
   * The entry setWidgetDirectionalFlow stores, keyed by the widget's full
   * name: None when the widget or a named target does not exist, or when a
   * target widget is in another menu.
   */
  function NewFlow(name: string, up: string, down: string, left: string, right: string,
                   gotoPrevious: string, widgets: map<string, FoundWidget>): (r: Option<(string, DirectionalFlow)>)
    ensures r.Some? <==>
      name in widgets &&
      (forall t :: t in {up, down, left, right} ==>
         ResolveTarget(t, gotoPrevious, widgets) != UnknownWidget &&
         InMenu(ResolveTarget(t, gotoPrevious, widgets), widgets[name].menu))
    ensures r.Some? ==>
      var menu := widgets[name].menu;
      r.value.0 == widgets[name].fullname &&
      FlowNameIn(r.value.1.up, menu, gotoPrevious, widgets) &&
      FlowNameIn(r.value.1.down, menu, gotoPrevious, widgets) &&
      FlowNameIn(r.value.1.left, menu, gotoPrevious, widgets) &&
      FlowNameIn(r.value.1.right, menu, gotoPrevious, widgets)
    ensures r.Some? && up == gotoPrevious ==> r.value.1.up == gotoPrevious
    ensures r.Some? && up != "" && up != gotoPrevious && up in widgets ==> r.value.1.up == widgets[up].fullname
  {
    if name !in widgets then None
    else
      var u := ResolveTarget(up, gotoPrevious, widgets);
      var d := ResolveTarget(down, gotoPrevious, widgets);
      var l := ResolveTarget(left, gotoPrevious, widgets);
      var rt := ResolveTarget(right, gotoPrevious, widgets);
      var menu := widgets[name].menu;
      if u == UnknownWidget || d == UnknownWidget || l == UnknownWidget || rt == UnknownWidget then None
      else if InMenu(u, menu) && InMenu(d, menu) && InMenu(l, menu) && InMenu(rt, menu) then
        StoredInMenu(up, menu, gotoPrevious, widgets);
        StoredInMenu(down, menu, gotoPrevious, widgets);
        StoredInMenu(left, menu, gotoPrevious, widgets);
        StoredInMenu(right, menu, gotoPrevious, widgets);
        Some((widgets[name].fullname,
              DirectionalFlow(StoredTarget(u, gotoPrevious), StoredTarget(d, gotoPrevious),
                              StoredTarget(l, gotoPrevious), StoredTarget(rt, gotoPrevious))))
      else None
  }

  lemma StoredInMenu(t: string, menu: string, gotoPrevious: string, widgets: map<string, FoundWidget>)
    requires ResolveTarget(t, gotoPrevious, widgets) != UnknownWidget
    requires InMenu(ResolveTarget(t, gotoPrevious, widgets), menu)
    ensures FlowNameIn(StoredTarget(ResolveTarget(t, gotoPrevious, widgets), gotoPrevious),
                       menu, gotoPrevious, widgets)
  {
    if t != "" && t != gotoPrevious {
      assert widgets[t].menu == menu;
    }
  }

  // ------------------------------------------------------------------
  // Scrollable panels
  // ------------------------------------------------------------------

  /** The value setVerticalScrollbarValue stores: the value capped at the content height. */
  function ScrollbarValue(value: nat, contentHeight: nat): (r: nat)
    ensures r <= value && r <= contentHeight
    ensures r == value || r == contentHeight
  {
    if value > contentHeight then contentHeight else value
  }

  // ------------------------------------------------------------------
  // The GUI engine's state
  // ------------------------------------------------------------------

  class Gui {
    /** GOTO_PREVIOUS_WIDGET. */
    const gotoPrevious: string
    var isLoading: bool
    var originalCaptions: map<string, OriginalCaption>
    var directionalFlow: map<string, DirectionalFlow>
    var selectThisWidgetFirst: map<string, string>
    var currentlySelectedWidget: map<string, Selection>
    var hierarchyOfLastMenuItem: map<string, seq<string>>
    var menuCounter: map<string, nat>
    var minimisedChildWindowList: map<string, seq<string>>

    ghost function State(): GuiState
      reads this
    {
      GuiState(isLoading, originalCaptions, directionalFlow, selectThisWidgetFirst,
               currentlySelectedWidget, hierarchyOfLastMenuItem, menuCounter,
               minimisedChildWindowList)
    }

    constructor (gotoPrevious: string)
      ensures this.gotoPrevious == gotoPrevious
      ensures State() == GuiState(false, map[], map[], map[], map[], map[], map[], map[])
    {
      this.gotoPrevious := gotoPrevious;
      isLoading := false;
      originalCaptions := map[];
      directionalFlow := map[];
      selectThisWidgetFirst := map[];
      currentlySelectedWidget := map[];
      hierarchyOfLastMenuItem := map[];
      menuCounter := map[];
      minimisedChildWindowList := map[];
    }

    /** Stores a single original caption for a widget. */
    method SetTranslatedString(fullname: string, text: string, variables: seq<string>)
      modifies this
      ensures State() == old(State()).(originalCaptions :=
                old(originalCaptions)[fullname := Single(SingleCaption(text, variables))])
    {
      originalCaptions := originalCaptions[fullname := Single(SingleCaption(text, variables))];
    }

    /**
     * Stores caption number index of a widget, turning its entry into a list
     * first if it is not one.
     */
    method SetTranslatedStringAt(fullname: string, text: string, variables: seq<string>, index: nat)
      modifies this
      ensures State() == old(State()).(originalCaptions :=
                old(originalCaptions)[fullname := ListOfCaptions(WithCaptionAt(
                  CaptionList(if fullname in old(originalCaptions) then Some(old(originalCaptions)[fullname]) else None),
                  index, SingleCaption(text, variables)))])
    {
      var list: seq<SingleCaption> := [];
      if fullname in originalCaptions && originalCaptions[fullname].ListOfCaptions? {
        list := originalCaptions[fullname].list;
      }
      if |list| <= index {
        list := list + seq(index + 1 - |list|, _ => EMPTY_CAPTION);
      }
      list := list[index := SingleCaption(text, variables)];
      originalCaptions := originalCaptions[fullname := ListOfCaptions(list)];
    }

    /**
     * Moves menu's selection to newsel (or back, for GOTO_PREVIOUS), if the
     * widget to select is visible and enabled.
     */
    method MakeNewDirectionalSelection(newsel: string, menu: string, visible: string -> bool)
      modifies this
      ensures State() == old(State()).(currentlySelectedWidget :=
                SelectionAfter(old(currentlySelectedWidget), menu, newsel, gotoPrevious, visible))
    {
      if newsel == "" {
        return;
      }
      var p := if menu in currentlySelectedWidget then currentlySelectedWidget[menu] else NO_SELECTION;
      if newsel == gotoPrevious {
        currentlySelectedWidget := currentlySelectedWidget[menu := p];
        if visible(p.previous) {
          currentlySelectedWidget := currentlySelectedWidget[menu := Selection(p.current, p.previous)];
        } else {
          return;
        }
      } else {
        if visible(newsel) {
          currentlySelectedWidget := currentlySelectedWidget[menu := Selection(p.current, newsel)];
        } else {
          return;
        }
      }
    }

    /**
     * Forgets everything kept about the widget name, whose parent is parent,
     * and removes every reference to it from the other widgets' state.
     */
    method EraseWidgetState(name: string, parent: string)
      modifies this
      ensures isLoading == old(isLoading)
      ensures originalCaptions == old(originalCaptions) - {name}
      ensures hierarchyOfLastMenuItem == old(hierarchyOfLastMenuItem) - {name}
      ensures menuCounter == old(menuCounter) - {name}
      ensures minimisedChildWindowList == MinimisedAfterErase(old(minimisedChildWindowList), name, parent)
      ensures directionalFlow.Keys == old(directionalFlow).Keys - {name}
      ensures forall k :: k in directionalFlow ==> directionalFlow[k] == FlowWithout(old(directionalFlow)[k], name)
      ensures selectThisWidgetFirst.Keys == old(selectThisWidgetFirst).Keys
      ensures forall k :: k in selectThisWidgetFirst ==>
                selectThisWidgetFirst[k] == NameWithout(old(selectThisWidgetFirst)[k], name)
      ensures currentlySelectedWidget.Keys == old(currentlySelectedWidget).Keys
      ensures forall k :: k in currentlySelectedWidget ==>
                currentlySelectedWidget[k] == SelectionWithout(old(currentlySelectedWidget)[k], name)
    {
      originalCaptions := originalCaptions - {name};
      directionalFlow := directionalFlow - {name};
      hierarchyOfLastMenuItem := hierarchyOfLastMenuItem - {name};
      menuCounter := menuCounter - {name};
      minimisedChildWindowList := minimisedChildWindowList - {name};
      var siblings := if parent in minimisedChildWindowList then minimisedChildWindowList[parent] else [];
      minimisedChildWindowList := minimisedChildWindowList[parent :=
        MinimisedWindows.Restored(siblings, MinimisedWindows.NAME_BLANK, name)];

      directionalFlow := FlowsWithout(directionalFlow, name);
      selectThisWidgetFirst := NamesWithout(selectThisWidgetFirst, name);
      currentlySelectedWidget := SelectionsWithout(currentlySelectedWidget, name);
    }

    /** The checks every menu function makes before touching its MenuBar. */
    predicate MenuBarReady(name: string, widgets: map<string, FoundWidget>)
      reads this
    {
      name in widgets && widgets[name].containerExists && isLoading &&
      widgets[name].widgetType == MENU_BAR
    }

    function CounterOf(fullname: string): nat
      reads this
    {
      if fullname in menuCounter then menuCounter[fullname] else 0
    }

    function HierarchyOf(fullname: string): seq<string>
      reads this
    {
      if fullname in hierarchyOfLastMenuItem then hierarchyOfLastMenuItem[fullname] else []
    }

    /** Issues the next ID of fullname's counter and stores the item's caption under it. */
    method IssueMenuItemID(fullname: string, text: string, variables: seq<string>) returns (id: nat)
      modifies this
      ensures id == old(CounterOf(fullname))
      ensures State() == old(State()).(
                menuCounter := old(menuCounter)[fullname := id + 1],
                originalCaptions := old(originalCaptions)[fullname := ListOfCaptions(WithCaptionAt(
                  CaptionList(if fullname in old(originalCaptions) then Some(old(originalCaptions)[fullname]) else None),
                  id, SingleCaption(text, variables)))])
    {
      id := if fullname in menuCounter then menuCounter[fullname] else 0;
      SetTranslatedStringAt(fullname, text, variables, id);
      menuCounter := menuCounter[fullname := id + 1];
    }

    /** Adds a menu to a MenuBar; returns its ID, or None (NO_MENU_ITEM_ID) on error. */
    method AddMenu(name: string, widgets: map<string, FoundWidget>, text: string, variables: seq<string>)
      returns (r: Option<nat>)
      modifies this
      ensures !old(MenuBarReady(name, widgets)) ==> r.None? && State() == old(State())
      ensures old(MenuBarReady(name, widgets)) ==>
                var full := widgets[name].fullname;
                r == Some(old(CounterOf(full))) &&
                hierarchyOfLastMenuItem == old(hierarchyOfLastMenuItem)[full := [text]] &&
                menuCounter == old(menuCounter)[full := r.value + 1] &&
                originalCaptions == old(originalCaptions)[full := ListOfCaptions(WithCaptionAt(
                  CaptionList(if full in old(originalCaptions) then Some(old(originalCaptions)[full]) else None),
                  r.value, SingleCaption(text, variables)))] &&
                isLoading && directionalFlow == old(directionalFlow) &&
                selectThisWidgetFirst == old(selectThisWidgetFirst) &&
                currentlySelectedWidget == old(currentlySelectedWidget) &&
                minimisedChildWindowList == old(minimisedChildWindowList)
    {
      if !MenuBarReady(name, widgets) {
        return None;
      }
      var full := widgets[name].fullname;
      hierarchyOfLastMenuItem := hierarchyOfLastMenuItem[full := [text]];
      var id := IssueMenuItemID(full, text, variables);
      r := Some(id);
    }

    /**
     * Adds an item to the current menu (or, below depth 1, replaces the
     * current item); addedByWidget is whether the MenuBar accepted the new
     * hierarchy.
     */
    method AddMenuItem(name: string, widgets: map<string, FoundWidget>, text: string, variables: seq<string>,
                       addedByWidget: bool) returns (r: Option<nat>)
      modifies this
      ensures !old(MenuBarReady(name, widgets)) ==> r.None? && State() == old(State())
      ensures old(MenuBarReady(name, widgets)) ==>
                var full := widgets[name].fullname;
                var h := old(HierarchyOf(full));
                (r.Some? <==> |h| > 0 && addedByWidget) &&
                (r.None? ==> State() == old(State()).(hierarchyOfLastMenuItem :=
                                old(hierarchyOfLastMenuItem)[full := h])) &&
                (r.Some? ==>
                   r == Some(old(CounterOf(full))) &&
                   hierarchyOfLastMenuItem == old(hierarchyOfLastMenuItem)[full := ItemHierarchy(h, text).value] &&
                   menuCounter == old(menuCounter)[full := r.value + 1] &&
                   originalCaptions == old(originalCaptions)[full := ListOfCaptions(WithCaptionAt(
                     CaptionList(if full in old(originalCaptions) then Some(old(originalCaptions)[full]) else None),
                     r.value, SingleCaption(text, variables)))] &&
                   isLoading && directionalFlow == old(directionalFlow) &&
                   selectThisWidgetFirst == old(selectThisWidgetFirst) &&
                   currentlySelectedWidget == old(currentlySelectedWidget) &&
                   minimisedChildWindowList == old(minimisedChildWindowList))
    {
      if !MenuBarReady(name, widgets) {
        return None;
      }
      var full := widgets[name].fullname;
      var copy := if full in hierarchyOfLastMenuItem then hierarchyOfLastMenuItem[full] else [];
      hierarchyOfLastMenuItem := hierarchyOfLastMenuItem[full := copy];
      if |copy| == 0 {
        return None;
      }
      var hierarchy := if |copy| == 1 then copy + [text] else copy[..|copy| - 1] + [text];
      if !addedByWidget {
        return None;
      }
      hierarchyOfLastMenuItem := hierarchyOfLastMenuItem[full := hierarchy];
      var id := IssueMenuItemID(full, text, variables);
      r := Some(id);
    }

    /** Adds text as the first item of a submenu of the current item. */
    method AddMenuItemIntoLastItem(name: string, widgets: map<string, FoundWidget>, text: string,
                                   variables: seq<string>, addedByWidget: bool) returns (r: Option<nat>)
      modifies this
      ensures !old(MenuBarReady(name, widgets)) ==> r.None? && State() == old(State())
      ensures old(MenuBarReady(name, widgets)) ==>
                var full := widgets[name].fullname;
                var h := old(HierarchyOf(full));
                (r.Some? <==> |h| > 0 && addedByWidget) &&
                (r.None? ==> State() == old(State()).(hierarchyOfLastMenuItem :=
                                old(hierarchyOfLastMenuItem)[full := h])) &&
                (r.Some? ==>
                   r == Some(old(CounterOf(full))) &&
                   hierarchyOfLastMenuItem == old(hierarchyOfLastMenuItem)[full := h + [text]] &&
                   menuCounter == old(menuCounter)[full := r.value + 1] &&
                   originalCaptions == old(originalCaptions)[full := ListOfCaptions(WithCaptionAt(
                     CaptionList(if full in old(originalCaptions) then Some(old(originalCaptions)[full]) else None),
                     r.value, SingleCaption(text, variables)))] &&
                   isLoading && directionalFlow == old(directionalFlow) &&
                   selectThisWidgetFirst == old(selectThisWidgetFirst) &&
                   currentlySelectedWidget == old(currentlySelectedWidget) &&
                   minimisedChildWindowList == old(minimisedChildWindowList))
    {
      if !MenuBarReady(name, widgets) {
        return None;
      }
      var full := widgets[name].fullname;
      var hierarchy := if full in hierarchyOfLastMenuItem then hierarchyOfLastMenuItem[full] else [];
      hierarchyOfLastMenuItem := hierarchyOfLastMenuItem[full := hierarchy];
      if |hierarchy| == 0 {
        return None;
      }
      hierarchyOfLastMenuItem := hierarchyOfLastMenuItem[full := hierarchy + [text]];
      if !addedByWidget {
        hierarchyOfLastMenuItem := hierarchyOfLastMenuItem[full := hierarchy];
        return None;
      }
      var id := IssueMenuItemID(full, text, variables);
      r := Some(id);
    }

    /** Leaves the current submenu: pops one level, from depth 3 or more. */
    method ExitSubmenu(name: string, widgets: map<string, FoundWidget>)
      modifies this
      ensures !old(MenuBarReady(name, widgets)) ==> State() == old(State())
      ensures old(MenuBarReady(name, widgets)) ==>
                var full := widgets[name].fullname;
                var h := old(HierarchyOf(full));
                State() == old(State()).(hierarchyOfLastMenuItem := old(hierarchyOfLastMenuItem)[full :=
                  match SubmenuExited(h) case Some(e) => e case None => h])
    {
      if !MenuBarReady(name, widgets) {
        return;
      }
      var full := widgets[name].fullname;
      var hierarchy := if full in hierarchyOfLastMenuItem then hierarchyOfLastMenuItem[full] else [];
      hierarchyOfLastMenuItem := hierarchyOfLastMenuItem[full := hierarchy];
      if |hierarchy| < 3 {
        return;
      }
      hierarchyOfLastMenuItem := hierarchyOfLastMenuItem[full := hierarchy[..|hierarchy| - 1]];
    }

    /** Sets a widget's directional flow, if all the names check out. */
    method SetWidgetDirectionalFlow(name: string, up: string, down: string, left: string, right: string,
                                    widgets: map<string, FoundWidget>)
      modifies this
      ensures State() == old(State()).(directionalFlow :=
                match NewFlow(name, up, down, left, right, gotoPrevious, widgets)
                case Some(e) => old(directionalFlow)[e.0 := e.1]
                case None => old(directionalFlow))
    {
      var flow := NewFlow(name, up, down, left, right, gotoPrevious, widgets);
      if flow.Some? {
        directionalFlow := directionalFlow[flow.value.0 := flow.value.1];
      }
    }
  }
}
