/**
 * engine::dialogue_box: its three options, which of them is selected, how
 * the selection cycles and is confirmed, and where the box is drawn; and
 * engine::dialogue_sequence::_allocateDialogueBox, which builds the box for
 * one entry of a sequence. Drawing, typing and transitions are not modelled.
 */
module Dialogue {

  /** engine::dialogue_box_position; NumberOfPositions is the count, not a place. */
  datatype Position = Top | Bottom | Middle | NumberOfPositions

  /** engine::dialogue_box_state. */
  datatype BoxState = Closed | TransitioningIn | Typing | StoppedTyping | Option1 | Option2 | Option3 | TransitioningOut

  /** The non-empty strings of opts, in order. */
  function NonEmpty(opts: seq<string>): (r: seq<string>)
    ensures |r| <= |opts|
    ensures forall i :: 0 <= i < |r| ==> r[i] != ""
  {
    if opts == [] then []
    else if opts[0] == "" then NonEmpty(opts[1..])
    else [opts[0]] + NonEmpty(opts[1..])
  }

  /** opts followed by empty strings up to three. */
  function Padded(opts: seq<string>): (r: seq<string>)
    requires |opts| <= 3
    ensures |r| == 3 && r[..|opts|] == opts
    ensures forall i :: |opts| <= i < 3 ==> r[i] == ""
    decreases 3 - |opts|
  {
    if |opts| == 3 then opts else Padded(opts + [""])
  }

  /** optionCount: how many of the three option strings are non-empty. */
  function OptionCount(o1: string, o2: string, o3: string): (n: nat)
    ensures n == |NonEmpty([o1, o2, o3])|
  {
    NonEmptyOfThree(o1, o2, o3);
    (if o1 != "" then 1 else 0) + (if o2 != "" then 1 else 0) + (if o3 != "" then 1 else 0)
  }

  /** The non-empty options among three, spelt out. */
  lemma NonEmptyOfThree(o1: string, o2: string, o3: string)
    ensures NonEmpty([o1, o2, o3]) == (if o1 == "" then [] else [o1]) + (if o2 == "" then [] else [o2]) + (if o3 == "" then [] else [o3])
  {
    assert [o1, o2, o3][1..] == [o2, o3] && [o2, o3][1..] == [o3] && [o3][1..] == [];
    assert NonEmpty([o3]) == (if o3 == "" then [] else [o3]);
    assert NonEmpty([o2, o3]) == (if o2 == "" then [] else [o2]) + NonEmpty([o3]);
  }

  /** Options given in any order of empty and non-empty strings: the non-empty ones packed to the front. */
  lemma PackedOptions(o1: string, o2: string, o3: string)
    ensures var p := Padded(NonEmpty([o1, o2, o3]));
      (p[1] != "" ==> p[0] != "") && (p[2] != "" ==> p[1] != "") &&
      OptionCount(p[0], p[1], p[2]) == OptionCount(o1, o2, o3)
  {
    var n := NonEmpty([o1, o2, o3]);
    var p := Padded(n);
    assert p[..|n|] == n;
    assert forall i :: 0 <= i < |n| ==> p[i] == n[i];
  }

  /** selectNextOption's step: one up, from the last option back to the first. */
  function NextOption(c: nat, n: nat): (r: nat)
    requires 1 <= c <= n
    ensures 1 <= r <= n
  {
    if c + 1 == n + 1 then 1 else c + 1
  }

  /** selectPreviousOption's step: one down, from the first option back to the last. */
  function PreviousOption(c: nat, n: nat): (r: nat)
    requires 1 <= c <= n
    ensures 1 <= r <= n
  {
    if c - 1 == 0 then n else c - 1
  }

  /** Moving the selection one way and then the other returns to where it was. */
  lemma NextPreviousInverse(c: nat, n: nat)
    requires 1 <= c <= n
    ensures PreviousOption(NextOption(c, n), n) == c
    ensures NextOption(PreviousOption(c, n), n) == c
  {
  }

  /** The option k presses of selectNextOption reach from c. */
  function NextOptionTimes(c: nat, n: nat, k: nat): (r: nat)
    requires 1 <= c <= n
    ensures 1 <= r <= n
  {
    if k == 0 then c else NextOption(NextOptionTimes(c, n, k - 1), n)
  }

  /** Up to n presses of selectNextOption count that many places round the options. */
  lemma {:induction false} NextOptionTimesCounts(c: nat, n: nat, k: nat)
    requires 1 <= c <= n && k <= n
    ensures NextOptionTimes(c, n, k) == if c + k <= n then c + k else c + k - n
  {
    if k > 0 {
      NextOptionTimesCounts(c, n, k - 1);
    }
  }

  /** n presses of selectNextOption come back to the start, and every option is reached in fewer. */
  lemma NextOptionCycles(c: nat, n: nat, t: nat)
    requires 1 <= c <= n && 1 <= t <= n
    ensures NextOptionTimes(c, n, n) == c
    ensures var k := if t >= c then t - c else t + n - c; k < n && NextOptionTimes(c, n, k) == t
  {
    NextOptionTimesCounts(c, n, n);
    NextOptionTimesCounts(c, n, if t >= c then t - c else t + n - c);
  }

  /** The option selectCurrentOption confirms, as the state it moves to: 1, 2, or anything else for the third. */
  function ChosenState(c: nat): (st: BoxState)
    ensures st == Option1 <==> c == 1
    ensures st == Option2 <==> c == 2
    ensures st in {Option1, Option2, Option3}
  {
    if c == 1 then Option1 else if c == 2 then Option2 else Option3
  }

  /** One entry of a dialogue sequence: how its box is set up. */
  datatype BoxData = BoxData(position: Position, mainText: string, nameText: string,
                             option1: string, option2: string, option3: string)

  /** engine::dialogue_box, reduced to the fields its option and position setters update. */
  class DialogueBox {
    var option1: string
    var option2: string
    var option3: string
    var currentOption: nat
    var state: BoxState
    var position: Position
    var mainText: string
    var nameText: string

    function Count(): nat
      reads this
    {
      OptionCount(option1, option2, option3)
    }

    /** Options are packed to the front, and one of them is selected exactly when there are any. */
    ghost predicate Valid()
      reads this
    {
      (option2 != "" ==> option1 != "") && (option3 != "" ==> option2 != "") &&
      currentOption <= Count() && (currentOption == 0 <==> Count() == 0)
    }

    /** Whether the selection responds: typing has stopped and there is something to select. */
    predicate Selecting()
      reads this
    {
      Count() > 0 && state == StoppedTyping
    }

    constructor ()
      ensures Valid() && option1 == "" && option2 == "" && option3 == "" && currentOption == 0
      ensures state == Closed && position == Bottom && mainText == "" && nameText == ""
    {
      option1, option2, option3 := "", "", "";
      currentOption := 0;
      state := Closed;
      position := Bottom;
      mainText, nameText := "", "";
    }

    /** setPosition: NumberOfPositions is stored as Bottom, any other position as given. */
    method SetPosition(p: Position)
      modifies this
      ensures position == (if p == NumberOfPositions then Bottom else p)
      ensures option1 == old(option1) && option2 == old(option2) && option3 == old(option3)
      ensures currentOption == old(currentOption) && state == old(state)
      ensures mainText == old(mainText) && nameText == old(nameText)
    {
      position := p;
      if position == NumberOfPositions {
        position := Bottom;
      }
    }

    /**
     * The selection after new options are stored: the first option when
     * options arrive at a box that had none, then clamped to the number of
     * options that remain.
     */
    method ClampSelection(hadNone: bool)
      requires (option2 != "" ==> option1 != "") && (option3 != "" ==> option2 != "")
      requires currentOption == 0 ==> hadNone || Count() == 0
      modifies this
      ensures Valid()
      ensures option1 == old(option1) && option2 == old(option2) && option3 == old(option3)
      ensures currentOption == if Count() == 0 then 0 else if hadNone then 1 else
        if old(currentOption) > Count() then Count() else old(currentOption)
      ensures state == old(state) && position == old(position) && mainText == old(mainText) && nameText == old(nameText)
    {
      if hadNone {
        currentOption := 1;
      }
      if Count() == 0 {
        currentOption := 0;
      } else if currentOption > Count() {
        currentOption := Count();
      }
    }

    /**
     * setOptions as written: the non-empty options are moved to the front,
     * keeping their order; but when only the third is given, the second
     * branch of the compaction copies the empty second option into the
     * first and clears the third, so no option is left.
     */
    method SetOptions(o1: string, o2: string, o3: string)
      requires Valid()
      modifies this
      ensures Valid()
      ensures [option1, option2, option3] == CompactedAsWritten(o1, o2, o3)
      ensures o1 == "" && o2 == "" && o3 != "" ==> option1 == "" && option2 == "" && option3 == ""
      ensures !(o1 == "" && o2 == "" && o3 != "") ==> [option1, option2, option3] == Padded(NonEmpty([o1, o2, o3]))
      ensures currentOption == if Count() == 0 then 0 else if old(option1) == "" then 1 else
        if old(currentOption) > Count() then Count() else old(currentOption)
      ensures state == old(state) && position == old(position) && mainText == old(mainText) && nameText == old(nameText)
    {
      var hadNone := option1 == "" && (o1 != "" || o2 != "" || o3 != "");
      option1, option2, option3 := o1, o2, o3;
      if option1 == "" && option2 != "" {
        option1 := option2;
        option2 := "";
      } else if option1 == "" && option3 != "" {
        option1 := option2;
        option3 := "";
      }
      if option2 == "" && option3 != "" {
        option2 := option3;
        option3 := "";
      }
      SetOptionsPacked(o1, o2, o3);
      ClampSelection(hadNone);
    }

    /**
     * setOptions as evidently intended: the second branch of the compaction
     * moves the third option into the first, so the non-empty options always
     * end up packed to the front, in order.
     */
    method SetOptionsIntended(o1: string, o2: string, o3: string)
      requires Valid()
      modifies this
      ensures Valid()
      ensures [option1, option2, option3] == Padded(NonEmpty([o1, o2, o3]))
      ensures currentOption == if Count() == 0 then 0 else if old(option1) == "" then 1 else
        if old(currentOption) > Count() then Count() else old(currentOption)
      ensures state == old(state) && position == old(position) && mainText == old(mainText) && nameText == old(nameText)
    {
      var hadNone := option1 == "" && (o1 != "" || o2 != "" || o3 != "");
      option1, option2, option3 := o1, o2, o3;
      if option1 == "" && option2 != "" {
        option1 := option2;
        option2 := "";
      } else if option1 == "" && option3 != "" {
        option1 := option3;
        option3 := "";
      }
      if option2 == "" && option3 != "" {
        option2 := option3;
        option3 := "";
      }
      CompactedPacks(o1, o2, o3);
      ClampSelection(hadNone);
    }

    /** selectNextOption: while selecting, the selection moves one up, from the last option back to the first. */
    method SelectNextOption()
      requires Valid()
      modifies this
      ensures Valid()
      ensures option1 == old(option1) && option2 == old(option2) && option3 == old(option3)
      ensures currentOption == if old(Selecting()) then NextOption(old(currentOption), Count()) else old(currentOption)
      ensures state == old(state) && position == old(position) && mainText == old(mainText) && nameText == old(nameText)
    {
      if Count() > 0 && state == StoppedTyping {
        currentOption := currentOption + 1;
        if currentOption == Count() + 1 {
          currentOption := 1;
        }
      }
    }

    /** selectPreviousOption: while selecting, the selection moves one down, from the first option back to the last. */
    method SelectPreviousOption()
      requires Valid()
      modifies this
      ensures Valid()
      ensures option1 == old(option1) && option2 == old(option2) && option3 == old(option3)
      ensures currentOption == if old(Selecting()) then PreviousOption(old(currentOption), Count()) else old(currentOption)
      ensures state == old(state) && position == old(position) && mainText == old(mainText) && nameText == old(nameText)
    {
      if Count() > 0 && state == StoppedTyping {
        currentOption := currentOption - 1;
        if currentOption == 0 {
          currentOption := Count();
        }
      }
    }

    /**
     * selectCurrentOption: while selecting, moves to the state of the
     * selected option and returns it; otherwise returns 0 and changes
     * nothing.
     */
    method SelectCurrentOption() returns (r: nat)
      requires Valid()
      modifies this
      ensures Valid()
      ensures r == if old(Selecting()) then old(currentOption) else 0
      ensures state == if old(Selecting()) then ChosenState(old(currentOption)) else old(state)
      ensures old(Selecting()) ==> 1 <= r <= Count()
      ensures option1 == old(option1) && option2 == old(option2) && option3 == old(option3)
      ensures currentOption == old(currentOption) && position == old(position)
      ensures mainText == old(mainText) && nameText == old(nameText)
    {
      if Count() > 0 && state == StoppedTyping {
        if currentOption == 1 {
          state := Option1;
        } else if currentOption == 2 {
          state := Option2;
        } else {
          state := Option3;
        }
        return currentOption;
      }
      return 0;
    }
  }

  /**
   * setOptions' compaction as written: the options after its two steps,
   * whose else-if branch copies the second option, not the third, into the
   * first.
   */
  function CompactedAsWritten(o1: string, o2: string, o3: string): (r: seq<string>)
    ensures |r| == 3
  {
    var a := if o1 == "" && o2 != "" then o2 else if o1 == "" && o3 != "" then o2 else o1;
    var b := if o1 == "" && o2 != "" then "" else o2;
    var c := if o1 == "" && o2 != "" then o3 else if o1 == "" && o3 != "" then "" else o3;
    [a, if b == "" && c != "" then c else b, if b == "" && c != "" then "" else c]
  }

  /** The compaction as evidently intended, moving the third option into the first. */
  function Compacted(o1: string, o2: string, o3: string): (r: seq<string>)
    ensures |r| == 3
  {
    var a := if o1 == "" && o2 != "" then o2 else if o1 == "" && o3 != "" then o3 else o1;
    var b := if o1 == "" && o2 != "" then "" else o2;
    var c := if o1 == "" && o2 != "" then o3 else if o1 == "" && o3 != "" then "" else o3;
    [a, if b == "" && c != "" then c else b, if b == "" && c != "" then "" else c]
  }

  /**
   * As written, the options are packed to the front, and are the given ones
   * packed, unless only the third was given: then none is left.
   */
  lemma SetOptionsPacked(o1: string, o2: string, o3: string)
    ensures var p := CompactedAsWritten(o1, o2, o3);
      (p[1] != "" ==> p[0] != "") && (p[2] != "" ==> p[1] != "") &&
      (o1 == "" && o2 == "" && o3 != "" ==> p == ["", "", ""]) &&
      (!(o1 == "" && o2 == "" && o3 != "") ==> p == Padded(NonEmpty([o1, o2, o3])))
  {
    NonEmptyOfThree(o1, o2, o3);
    var n := NonEmpty([o1, o2, o3]);
    var r := Padded(n);
    assert r[..|n|] == n;
    assert forall i :: 0 <= i < |n| ==> r[i] == n[i];
  }

  /** The intended compaction always packs the given non-empty options to the front, in order. */
  lemma CompactedPacks(o1: string, o2: string, o3: string)
    ensures Compacted(o1, o2, o3) == Padded(NonEmpty([o1, o2, o3]))
  {
    NonEmptyOfThree(o1, o2, o3);
    var n := NonEmpty([o1, o2, o3]);
    var r := Padded(n);
    assert r[..|n|] == n;
    assert forall i :: 0 <= i < |n| ==> r[i] == n[i];
  }

  /** Only a third option given: as written the box ends with no option; as intended, with that one. */
  lemma OnlyThirdOptionLostAsWritten()
    ensures OptionCount("", "", "Yes") == 1
    ensures CompactedAsWritten("", "", "Yes") == ["", "", ""]
    ensures Compacted("", "", "Yes") == ["Yes", "", ""]
  {
  }

  /** engine::dialogue_sequence, reduced to the entries it allocates boxes from. */
  class DialogueSequence {
    var boxes: seq<BoxData>

    constructor (entries: seq<BoxData>)
      ensures boxes == entries
    {
      boxes := entries;
    }

    /**
     * _allocateDialogueBox: no box past the end of the sequence; otherwise a
     * new box placed, labelled and given its options as the entry says,
     * packed by setOptions as written, so an entry with only its third
     * option gives a box without options.
     */
    method AllocateDialogueBox(i: nat) returns (box: DialogueBox?)
      ensures i >= |boxes| ==> box == null
      ensures i < |boxes| ==> (box != null && fresh(box) && box.Valid() &&
        box.position == (if boxes[i].position == NumberOfPositions then Bottom else boxes[i].position) &&
        box.mainText == boxes[i].mainText && box.nameText == boxes[i].nameText && box.state == Closed &&
        var d := boxes[i];
        [box.option1, box.option2, box.option3] == CompactedAsWritten(d.option1, d.option2, d.option3) &&
        (!(d.option1 == "" && d.option2 == "" && d.option3 != "") ==>
          [box.option1, box.option2, box.option3] == Padded(NonEmpty([d.option1, d.option2, d.option3]))) &&
        (d.option1 == "" && d.option2 == "" && d.option3 != "" ==> box.Count() == 0))
    {
      if i >= |boxes| {
        return null;
      }
      var data := boxes[i];
      box := new DialogueBox();
      box.SetPosition(data.position);
      box.mainText := data.mainText;
      box.nameText := data.nameText;
      box.SetOptions(data.option1, data.option2, data.option3);
    }
  }
}
